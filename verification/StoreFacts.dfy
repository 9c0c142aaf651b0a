/** Facts about the store's lists that the invariants rest on. */
module StoreFacts {
  import opened Wrappers
  import opened Patterns
  import opened Applications
  import opened Targets
  import opened Cluster

  predicate UniqueIds(apps: seq<App>) {
    forall i, j :: 0 <= i < j < |apps| ==> apps[i].id != apps[j].id
  }

  lemma {:induction false} ChildrenAreTracked(apps: seq<App>, parent: string)
    ensures forall a :: a in Children(apps, parent) <==> a in apps && TracksChild(a, parent)
  {
    if apps != [] {
      ChildrenAreTracked(apps[1..], parent);
      assert apps == [apps[0]] + apps[1..];
    }
  }

  /** No place in the text holds the separator of a tracking id. */
  ghost predicate Unseparated(id: string) {
    forall i, j :: 0 <= i <= j <= |id| ==> id[i..j] != ":argoproj.io/Application:"
  }

  /** An Application is tracked by the parent that its tracking id names before the separator, and by no other. */
  lemma TrackedByItsOwner(a: App, owner: string, rest: string, parent: string)
    requires ':' !in owner && ':' !in parent
    requires a.tracking == Some(owner + ":argoproj.io/Application:" + rest)
    ensures TracksChild(a, parent) <==> owner == parent
  {
    var id := a.tracking.value;
    if TracksChild(a, parent) {
      NoColonBefore(owner, id);
      NoColonBefore(parent, id);
      assert id[|owner|] == ':' && id[|parent|] == ':';
      assert owner == id[..|owner|] == id[..|parent|] == parent;
    }
  }

  lemma NoColonBefore(name: string, id: string)
    requires ':' !in name && name <= id
    ensures forall k :: 0 <= k < |name| ==> id[k] != ':'
  {
    forall k | 0 <= k < |name| ensures id[k] != ':' {
      assert id[k] == name[k] && name[k] in name;
    }
  }

  /** Without a tracking id, or with one that has no separator, it is tracked by nobody. */
  lemma UntrackedByAll(a: App, parent: string)
    ensures a.tracking.None? || Unseparated(a.tracking.value) ==> !TracksChild(a, parent)
  {
    if TracksChild(a, parent) {
      var id, whole := a.tracking.value, parent + ":argoproj.io/Application:";
      assert id[|parent|..|whole|] == whole[|parent|..] == ":argoproj.io/Application:";
    }
  }

  /**
   A listing holds, as often as the store does, exactly the Applications whose tracking id begins with
   the parent's name and the separator; two parents have no child in common.
   */
  lemma ChildrenAreThoseNamed(apps: seq<App>, parent: string, other: string, a: App)
    requires ':' !in parent && ':' !in other
    ensures a in Children(apps, parent) <==>
      a in apps && a.tracking.Some? && parent + ":argoproj.io/Application:" <= a.tracking.value
    ensures parent != other ==> a !in Children(apps, parent) || a !in Children(apps, other)
    ensures a in Children(apps, parent) ==> multiset(Children(apps, parent))[a] == multiset(apps)[a]
  {
    ChildrenAreTracked(apps, parent);
    ChildrenAreTracked(apps, other);
    ChildrenAreCounted(apps, parent, a);
    if TracksChild(a, parent) {
      var begin := parent + ":argoproj.io/Application:";
      var rest := a.tracking.value[|begin|..];
      assert a.tracking.value == begin + rest;
      TrackedByItsOwner(a, parent, rest, other);
    }
  }

  lemma ChildrenHavePrefix(apps: seq<App>, parent: string)
    ensures forall a :: a in Children(apps, parent) <==>
      a in apps && a.tracking.Some? && parent + ":argoproj.io/Application:" <= a.tracking.value
  {
    ChildrenAreTracked(apps, parent);
  }

  lemma {:induction false} ChildrenAreCounted(apps: seq<App>, parent: string, a: App)
    ensures multiset(Children(apps, parent))[a] == if TracksChild(a, parent) then multiset(apps)[a] else 0
  {
    if apps != [] {
      ChildrenAreCounted(apps[1..], parent, a);
      assert apps == [apps[0]] + apps[1..];
    }
  }

  lemma {:induction false} FindIsMember(apps: seq<App>, id: AppId)
    ensures Find(apps, id).Some? ==> Find(apps, id).value in apps && Find(apps, id).value.id == id
    ensures Find(apps, id).None? ==> forall a :: a in apps ==> a.id != id
  {
    if apps != [] {
      FindIsMember(apps[1..], id);
      assert apps == [apps[0]] + apps[1..];
    }
  }

  lemma {:induction false} FindUnique(apps: seq<App>, a: App)
    requires UniqueIds(apps) && a in apps
    ensures Find(apps, a.id) == Some(a)
  {
    assert apps == [apps[0]] + apps[1..];
    if apps[0].id == a.id {
      var k :| 0 <= k < |apps| && apps[k] == a;
      assert k == 0;
    } else {
      FindUnique(apps[1..], a);
    }
  }

  lemma {:induction false} ReplaceKeepsIds(apps: seq<App>, a: App)
    ensures forall i :: 0 <= i < |apps| ==> Replace(apps, a)[i].id == apps[i].id
  {
    if apps != [] && apps[0].id != a.id {
      ReplaceKeepsIds(apps[1..], a);
    }
  }

  lemma {:induction false} ReplaceMembers(apps: seq<App>, a: App, x: App)
    ensures x in Replace(apps, a) ==> x in apps || x == a
    ensures x in apps && x.id != a.id ==> x in Replace(apps, a)
    ensures x == a && Find(apps, a.id).Some? ==> x in Replace(apps, a)
  {
    if apps != [] {
      assert apps == [apps[0]] + apps[1..];
      if apps[0].id != a.id {
        ReplaceMembers(apps[1..], a, x);
      }
    }
  }

  lemma ReplaceIsUpdate(apps: seq<App>, a: App)
    ensures forall x :: x in Replace(apps, a) ==> x in apps || x == a
    ensures forall x :: x in apps && x.id != a.id ==> x in Replace(apps, a)
    ensures forall i :: 0 <= i < |apps| ==> Replace(apps, a)[i].id == apps[i].id
    ensures Find(apps, a.id).Some? ==> a in Replace(apps, a)
  {
    hide Replace, Find;
    ReplaceKeepsIds(apps, a);
    ReplaceMembers(apps, a, a);
    forall x ensures x in Replace(apps, a) ==> x in apps || x == a
             ensures x in apps && x.id != a.id ==> x in Replace(apps, a)
    {
      ReplaceMembers(apps, a, x);
    }
  }

  lemma {:induction false} FindInReplaced(apps: seq<App>, a: App, id: AppId)
    ensures Find(Replace(apps, a), id) == if id == a.id && Find(apps, id).Some? then Some(a) else Find(apps, id)
  {
    if apps != [] {
      var r := Replace(apps, a);
      if apps[0].id == a.id {
        assert r[1..] == apps[1..];
      } else {
        assert r[1..] == Replace(apps[1..], a);
        FindInReplaced(apps[1..], a, id);
      }
    }
  }

  lemma {:induction false} RemoveIsSubset(apps: seq<App>, id: AppId)
    ensures forall x :: x in Remove(apps, id) <==> x in apps && x.id != id
    ensures UniqueIds(apps) ==> UniqueIds(Remove(apps, id))
  {
    if apps != [] {
      var rest := Remove(apps[1..], id);
      RemoveIsSubset(apps[1..], id);
      assert apps == [apps[0]] + apps[1..];
      if UniqueIds(apps) {
        assert forall x :: x in rest ==> x.id != apps[0].id by {
          forall x | x in rest ensures x.id != apps[0].id {
            var k :| 0 <= k < |apps[1..]| && apps[1..][k] == x;
            assert apps[k + 1] == x;
          }
        }
      }
    }
  }

  lemma {:induction false} FindAfterRemove(apps: seq<App>, gone: AppId, id: AppId)
    ensures Find(Remove(apps, gone), id) == if id == gone then None else Find(apps, id)
  {
    if apps != [] {
      FindAfterRemove(apps[1..], gone, id);
    }
  }

  lemma {:induction false} FindAfterAppend(apps: seq<App>, a: App, id: AppId)
    ensures Find(apps + [a], id)
         == if Find(apps, id).Some? then Find(apps, id) else if a.id == id then Some(a) else None
  {
    if apps == [] {
      assert apps + [a] == [a];
    } else {
      assert (apps + [a])[1..] == apps[1..] + [a];
      FindAfterAppend(apps[1..], a, id);
    }
  }

  /** A local copy of an Application: if the store still has that version, it is this content. */
  predicate Snapshot(w: World, a: App) {
    && a.rv < w.nextRv
    && (Find(w.apps, a.id).Some? && Find(w.apps, a.id).value.rv == a.rv ==> Find(w.apps, a.id).value == a)
  }

  /** Identities are unique and every stored version number has been handed out. */
  predicate StoreOk(w: World) {
    && UniqueIds(w.apps)
    && (forall a :: a in w.apps ==> a.rv < w.nextRv)
  }

  /** The store holds what an API server would have stored. */
  ghost predicate Normal(w: World) {
    forall a :: a in w.apps ==> Stored(a.spec) == a.spec
  }

  predicate Tracked(w: World, parent: string) {
    exists a :: a in w.apps && TracksChild(a, parent)
  }

  lemma PresentIsTracked(w: World, parent: string)
    ensures Present(w, HubChildren(parent)) <==> Tracked(w, parent)
  {
    ChildrenAreTracked(w.apps, parent);
    if Children(w.apps, parent) != [] {
      assert Children(w.apps, parent)[0] in Children(w.apps, parent);
    }
  }

  // ---- What the two writes of the Pattern do ----

  /**
   A status write takes effect exactly when it reaches the store, the Pattern is there and the copy
   is of the latest version. Then nothing but the status of that version changes, and the copy, if the
   answer arrives, becomes what is stored; otherwise nothing changes at all.
   */
  lemma StatusWriteExactly(w: World, o: Oracle, c: Copy)
    ensures var w1, s := Before(w, o), WriteStatus(w, o, c);
            && (s.out.Some? <==> Answer(w, o) == Fine && Accepts(w1, c))
            && (!(Served(Answer(w, o)) && Accepts(w1, c)) ==> s.world == w1)
            && (Served(Answer(w, o)) && Accepts(w1, c) ==>
                  && Current(s.world) == w1.versions[c.rv].(status := c.obj.status)
                  && (s.out.Some? ==> s.out.value == Copy(Top(s.world), Current(s.world)))
                  && w1.versions <= s.world.versions && |s.world.versions| <= |w1.versions| + 1
                  && s.world == w1.(versions := s.world.versions))
  {
    hide HappenAll;
  }

  /** An object write, on the same condition: status and deletion stay, and the object goes with its last finalizer. */
  lemma ObjectWriteExactly(w: World, o: Oracle, c: Copy)
    ensures var w1, s := Before(w, o), WriteObject(w, o, c);
            && (s.out.Some? <==> Answer(w, o) == Fine && Accepts(w1, c))
            && (!(Served(Answer(w, o)) && Accepts(w1, c)) ==> s.world == w1)
            && (Served(Answer(w, o)) && Accepts(w1, c) ==>
                  var was := w1.versions[c.rv];
                  && Current(s.world) == c.obj.(deleting := was.deleting, status := was.status)
                  && (s.out.Some? ==> s.out.value == Copy(Top(s.world), Current(s.world)))
                  && w1.versions <= s.world.versions && |s.world.versions| <= |w1.versions| + 1
                  && s.world == w1.(versions := s.world.versions, gone := s.world.gone)
                  && (s.world.gone <==> was.deleting && c.obj.finalizers == {}))
  {
    hide HappenAll;
  }
}
