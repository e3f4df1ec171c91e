/**
  The tree walk both providers share (`RecurseForData`), as a specification
  function over the configuration tree, with the properties of the walk.
  What happens at a marker (fetch the secret, flatten it) is a parameter, so the
  same walk serves both providers.
*/
module Discovery {
  import opened Wrappers
  import opened Text
  import opened ConfigTree

  /** Resolves one marker: its value (the secret id) and its derived parent path give the flattened pairs. */
  type Resolve = (Option<string>, string) -> Result<seq<Pair>, LoadError>

  /** Sequencing of two steps that may throw: the first failure aborts, otherwise the pairs are appended. */
  function Join(first: Result<seq<Pair>, LoadError>, rest: Result<seq<Pair>, LoadError>): Result<seq<Pair>, LoadError>
  {
    match first
    case Failure(_) => first
    case Success(a) =>
      match rest
      case Failure(_) => rest
      case Success(b) => Success(a + b)
  }

  /** What the walk gathers at one child: a marker is resolved, any other child is searched in turn. */
  function Visit(child: Section, secretKeyName: string, resolve: Resolve): Result<seq<Pair>, LoadError>
    decreases child, 1
  {
    if IsMarker(child, secretKeyName) then resolve(child.value, ParentPath(child))
    else Discover(child.children, secretKeyName, resolve)
  }

  /** The pairs `RecurseForData` appends for `sections`, children visited in order. */
  function Discover(sections: seq<Section>, secretKeyName: string, resolve: Resolve): Result<seq<Pair>, LoadError>
    decreases sections, 0
  {
    if sections == [] then Success([])
    else Join(Visit(sections[0], secretKeyName, resolve), Discover(sections[1..], secretKeyName, resolve))
  }

  lemma JoinAssociative(a: Result<seq<Pair>, LoadError>, b: Result<seq<Pair>, LoadError>, c: Result<seq<Pair>, LoadError>)
    ensures Join(Join(a, b), c) == Join(a, Join(b, c))
  {
    if a.Success? && b.Success? && c.Success? {
      assert (a.value + b.value) + c.value == a.value + (b.value + c.value);
    }
  }

  /** No pairs and no failure is the neutral step. */
  lemma JoinIdentity(r: Result<seq<Pair>, LoadError>)
    ensures Join(Success([]), r) == r && Join(r, Success([])) == r
  {
    if r.Success? {
      assert [] + r.value == r.value == r.value + [];
    }
  }

  /** The walk over a concatenation of sibling lists is the walk over the first, then over the second. */
  lemma {:induction false} DiscoverAppend(a: seq<Section>, b: seq<Section>, secretKeyName: string, resolve: Resolve)
    ensures Discover(a + b, secretKeyName, resolve) == Join(Discover(a, secretKeyName, resolve), Discover(b, secretKeyName, resolve))
    decreases |a|
  {
    if a == [] {
      assert a + b == b;
      JoinIdentity(Discover(b, secretKeyName, resolve));
    } else {
      assert (a + b)[0] == a[0];
      assert (a + b)[1..] == a[1..] + b;
      DiscoverAppend(a[1..], b, secretKeyName, resolve);
      JoinAssociative(Visit(a[0], secretKeyName, resolve), Discover(a[1..], secretKeyName, resolve), Discover(b, secretKeyName, resolve));
    }
  }

  /** One more child extends the walk by that child's contribution. */
  lemma DiscoverSnoc(sections: seq<Section>, child: Section, secretKeyName: string, resolve: Resolve)
    ensures Discover(sections + [child], secretKeyName, resolve)
         == Join(Discover(sections, secretKeyName, resolve), Visit(child, secretKeyName, resolve))
  {
    DiscoverAppend(sections, [child], secretKeyName, resolve);
    assert [child][1..] == [];
    JoinIdentity(Visit(child, secretKeyName, resolve));
  }

  /** Once the walk over a prefix of the children fails, the whole walk fails with that error. */
  lemma DiscoverPrefixFailure(sections: seq<Section>, i: nat, secretKeyName: string, resolve: Resolve)
    requires i <= |sections| && Discover(sections[..i], secretKeyName, resolve).Failure?
    ensures Discover(sections, secretKeyName, resolve) == Discover(sections[..i], secretKeyName, resolve)
  {
    assert sections == sections[..i] + sections[i..];
    DiscoverAppend(sections[..i], sections[i..], secretKeyName, resolve);
  }

  // ---------------------------------------------------------------------------
  // Reference: first collect the markers in pre-order, then resolve each in turn.

  /** The marker sections the walk reaches, in depth-first pre-order; a marker's subtree is not searched. */
  function Markers(sections: seq<Section>, secretKeyName: string): seq<Section>
    decreases sections
  {
    if sections == [] then []
    else
      var child := sections[0];
      (if IsMarker(child, secretKeyName) then [child] else Markers(child.children, secretKeyName))
      + Markers(sections[1..], secretKeyName)
  }

  /** Resolves the given markers one after another, stopping at the first failure. */
  function ResolveAll(markers: seq<Section>, resolve: Resolve): Result<seq<Pair>, LoadError>
  {
    if markers == [] then Success([])
    else Join(resolve(markers[0].value, ParentPath(markers[0])), ResolveAll(markers[1..], resolve))
  }

  lemma {:induction false} ResolveAllAppend(a: seq<Section>, b: seq<Section>, resolve: Resolve)
    ensures ResolveAll(a + b, resolve) == Join(ResolveAll(a, resolve), ResolveAll(b, resolve))
    decreases |a|
  {
    if a == [] {
      assert a + b == b;
      JoinIdentity(ResolveAll(b, resolve));
    } else {
      assert (a + b)[0] == a[0];
      assert (a + b)[1..] == a[1..] + b;
      ResolveAllAppend(a[1..], b, resolve);
      JoinAssociative(resolve(a[0].value, ParentPath(a[0])), ResolveAll(a[1..], resolve), ResolveAll(b, resolve));
    }
  }

  /**
    The walk resolves exactly the pre-order markers, in that order: its result is
    what resolving `Markers(sections)` one by one gives, the first failure included.
  */
  lemma {:induction false} DiscoverResolvesMarkersInOrder(sections: seq<Section>, secretKeyName: string, resolve: Resolve)
    ensures Discover(sections, secretKeyName, resolve) == ResolveAll(Markers(sections, secretKeyName), resolve)
    decreases sections
  {
    if sections != [] {
      var child := sections[0];
      var head := if IsMarker(child, secretKeyName) then [child] else Markers(child.children, secretKeyName);
      ResolveAllAppend(head, Markers(sections[1..], secretKeyName), resolve);
      DiscoverResolvesMarkersInOrder(sections[1..], secretKeyName, resolve);
      if IsMarker(child, secretKeyName) {
        assert head[1..] == [];
        JoinIdentity(resolve(child.value, ParentPath(child)));
      } else {
        DiscoverResolvesMarkersInOrder(child.children, secretKeyName, resolve);
      }
    }
  }

  /** `target` is one of `sections` or lies below a non-marker one of them. */
  predicate Visited(sections: seq<Section>, secretKeyName: string, target: Section)
    decreases sections
  {
    exists i :: 0 <= i < |sections| &&
      (sections[i] == target || (!IsMarker(sections[i], secretKeyName) && Visited(sections[i].children, secretKeyName, target)))
  }

  /** A section is collected exactly when it is a marker and the walk reaches it (only through non-markers). */
  lemma {:induction false} MarkersAreVisitedMarkers(sections: seq<Section>, secretKeyName: string, target: Section)
    ensures target in Markers(sections, secretKeyName)
        <==> IsMarker(target, secretKeyName) && Visited(sections, secretKeyName, target)
    decreases sections
  {
    if sections != [] {
      var child := sections[0];
      var tail := sections[1..];
      MarkersAreVisitedMarkers(tail, secretKeyName, target);
      if !IsMarker(child, secretKeyName) {
        MarkersAreVisitedMarkers(child.children, secretKeyName, target);
      }
      if Visited(sections, secretKeyName, target) {
        var i :| 0 <= i < |sections| &&
          (sections[i] == target || (!IsMarker(sections[i], secretKeyName) && Visited(sections[i].children, secretKeyName, target)));
        if i > 0 {
          assert tail[i - 1] == sections[i];
          assert Visited(tail, secretKeyName, target);
        }
      }
      if Visited(tail, secretKeyName, target) {
        var j :| 0 <= j < |tail| &&
          (tail[j] == target || (!IsMarker(tail[j], secretKeyName) && Visited(tail[j].children, secretKeyName, target)));
        assert sections[j + 1] == tail[j];
        assert Visited(sections, secretKeyName, target);
      }
      if !IsMarker(child, secretKeyName) && Visited(child.children, secretKeyName, target) {
        assert sections[0] == child;
        assert Visited(sections, secretKeyName, target);
      }
    }
  }

  /** Whatever a marker section holds below it never influences the walk. */
  lemma MarkerChildrenIgnored(sections: seq<Section>, i: nat, secretKeyName: string, resolve: Resolve, other: seq<Section>)
    requires i < |sections| && IsMarker(sections[i], secretKeyName)
    ensures Discover(sections[i := sections[i].(children := other)], secretKeyName, resolve)
         == Discover(sections, secretKeyName, resolve)
  {
    var changed := sections[i := sections[i].(children := other)];
    assert sections == sections[..i] + ([sections[i]] + sections[i + 1..]);
    assert changed == sections[..i] + ([changed[i]] + sections[i + 1..]);
    DiscoverAppend(sections[..i], [sections[i]] + sections[i + 1..], secretKeyName, resolve);
    DiscoverAppend(changed[..i], [changed[i]] + sections[i + 1..], secretKeyName, resolve);
    assert changed[..i] == sections[..i];
    DiscoverAppend([sections[i]], sections[i + 1..], secretKeyName, resolve);
    DiscoverAppend([changed[i]], sections[i + 1..], secretKeyName, resolve);
    assert Discover([changed[i]], secretKeyName, resolve) == Discover([sections[i]], secretKeyName, resolve) by {
      assert [changed[i]][1..] == [] == [sections[i]][1..];
    }
  }

  // ---------------------------------------------------------------------------
  // Reference: hand each section's path down instead of cutting it out of the marker's path.

  /**
    The walk with the parent path passed down explicitly. A top-level marker has no
    parent; there the reference uses the marker's key, which is what the source yields.
  */
  function DiscoverFrom(sections: seq<Section>, parent: Option<string>, secretKeyName: string, resolve: Resolve): Result<seq<Pair>, LoadError>
    decreases sections
  {
    if sections == [] then Success([])
    else
      var child := sections[0];
      var here :=
        if IsMarker(child, secretKeyName) then
          resolve(child.value, if parent.None? then child.key else parent.value)
        else DiscoverFrom(child.children, Some(child.path), secretKeyName, resolve);
      Join(here, DiscoverFrom(sections[1..], parent, secretKeyName, resolve))
  }

  /** No section the walk descends into has a path with a later segment starting with the marker name. */
  predicate PathsFreeOfMarker(sections: seq<Section>, secretKeyName: string)
    decreases sections
  {
    forall i :: 0 <= i < |sections| && !IsMarker(sections[i], secretKeyName) ==>
      && !Contains(sections[i].path, ":" + secretKeyName)
      && PathsFreeOfMarker(sections[i].children, secretKeyName)
  }

  /**
    On a well-formed tree whose paths do not contain `":" + marker` (ignoring case),
    cutting the marker segment out of the marker's path yields exactly its parent's
    path, so the source's walk agrees with the one that passes the path down.
  */
  lemma {:induction false} DiscoverMatchesPassedDownParent(
    sections: seq<Section>, parent: Option<string>, secretKeyName: string, resolve: Resolve)
    requires WellFormed(sections, parent)
    requires parent.Some? ==> !Contains(parent.value, ":" + secretKeyName)
    requires PathsFreeOfMarker(sections, secretKeyName)
    ensures Discover(sections, secretKeyName, resolve) == DiscoverFrom(sections, parent, secretKeyName, resolve)
    decreases sections
  {
    if sections != [] {
      var child := sections[0];
      if IsMarker(child, secretKeyName) {
        match parent
        case None =>
          ParentPathOfTopLevelMarker(child);
        case Some(p) =>
          FoldAppend(":", child.key);
          FoldAppend(":", secretKeyName);
          ContainsFoldedPattern(p, ":" + child.key, ":" + secretKeyName);
          ParentPathOfNestedMarker(p, child);
      } else {
        DiscoverMatchesPassedDownParent(child.children, Some(child.path), secretKeyName, resolve);
      }
      assert forall i :: 0 <= i < |sections| - 1 ==> sections[1..][i] == sections[i + 1];
      DiscoverMatchesPassedDownParent(sections[1..], parent, secretKeyName, resolve);
    }
  }
}
