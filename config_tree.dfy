/**
  The already-built configuration tree the providers scan, and how a marker
  section's parent path is derived from its own path.
*/
module ConfigTree {
  import opened Wrappers
  import opened Text

  /**
    One configuration section: its key (last path segment), its full path, its
    value (null for a section that only has children) and its children in order.
    The configuration root is modelled as the sequence of its top-level sections.
  */
  datatype Section = Section(key: string, path: string, value: Option<string>, children: seq<Section>)

  /** A flattened setting: full path and string value. */
  type Pair = (string, string)

  /** Why a load is aborted (the exceptions of the source). */
  datatype LoadError =
    | StoreError(message: string)   // the secret store or the JSON reader threw
    | MissingSecretId               // a marker section without a value
    | NullSecret                    // the secret deserialised to a null dictionary
    | DuplicateKey(key: string)     // `Data.Add` met a key that is already present

  /** `ConfigurationPath.Combine`: the path of a child section under `parent` (none for the root). */
  function ChildPath(parent: Option<string>, key: string): string
  {
    match parent
    case None => key
    case Some(p) => p + ":" + key
  }

  /**
    The shape the configuration system gives its sections: keys never contain the
    path separator, and every path is its parent's path joined with the key.
  */
  predicate WellFormed(sections: seq<Section>, parent: Option<string>)
    decreases sections
  {
    forall i :: 0 <= i < |sections| ==>
      && ':' !in sections[i].key
      && sections[i].path == ChildPath(parent, sections[i].key)
      && WellFormed(sections[i].children, Some(sections[i].path))
  }

  /** `0 == string.Compare(child.Key, secretKeyName, true)`. */
  predicate IsMarker(child: Section, secretKeyName: string)
  {
    EqualsIgnoreCase(child.key, secretKeyName)
  }

  /** `child.Path.Replace(":" + child.Key, null, InvariantCultureIgnoreCase)`. */
  function ParentPath(child: Section): string
  {
    RemoveAll(child.path, ":" + child.key)
  }

  /**
    A marker nested under a section gets that section's path as its parent path,
    provided the parent's path does not itself contain `":" + key` ignoring case.
  */
  lemma ParentPathOfNestedMarker(parentPath: string, child: Section)
    requires ':' !in child.key
    requires child.path == ChildPath(Some(parentPath), child.key)
    requires !Contains(parentPath, ":" + child.key)
    ensures ParentPath(child) == parentPath
  {
    RemoveAllTrailingSegment(parentPath, child.key);
  }

  /** A top-level marker has no colon in its path, so its path is its own parent path. */
  lemma ParentPathOfTopLevelMarker(child: Section)
    requires ':' !in child.key
    requires child.path == ChildPath(None, child.key)
    ensures ParentPath(child) == child.path == child.key
  {
    ColonFreeHasNoColonPattern(child.path, ":" + child.key);
    RemoveAllWithoutOccurrence(child.path, ":" + child.key);
  }

  /**
    Every occurrence of `":" + key` is deleted, not only the trailing segment: for the
    marker `a:AwsSecretX:AwsSecret` the derived parent path is `aX`, not `a:AwsSecretX`.
  */
  lemma ParentPathDeletesInnerOccurrences()
    ensures ParentPath(Section("AwsSecret", "a:AwsSecretX:AwsSecret", Some("id"), [])) == "aX"
  {
    assert ":" + "AwsSecret" == ":AwsSecret";
    RemoveAllMangledSegment();
  }
}
