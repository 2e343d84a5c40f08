/** What cleaning leaves of each entry, said without the program's steps (ui/src/lib/policyDraft.ts). */
module Pruning {
  import opened Common
  import opened Sequences
  import opened Strings
  import opened Cascade

  // ----- References

  /** The name of one of the targets, or, for a tag, the name with a colon and anything after it. */
  ghost predicate Names(v: string, ts: set<Target>) {
    exists t :: t in ts && (v == t.name || (t.section == TagOwners && exists port: string :: v == t.name + ":" + port))
  }

  ghost predicate SomeNamed(values: seq<string>, ts: set<Target>) {
    exists v :: v in values && Names(v, ts)
  }

  ghost predicate AllNamed(values: seq<string>, ts: set<Target>) {
    forall v :: v in values ==> Names(v, ts)
  }

  /** What is not named, in order. */
  ghost predicate Pruned(out: seq<string>, values: seq<string>, ts: set<Target>) {
    Selects(out, values, v => !Names(v, ts))
  }

  lemma ReferenceMeans(v: string, t: Target)
    ensures IsReference(v, t) <==>
              v == t.name || (t.section == TagOwners && exists port: string :: v == t.name + ":" + port)
  {
    var start := t.name + ":";
    if HasPrefix(v, start) {
      assert v == t.name + ":" + v[|start|..];
    }
    if port: string :| v == t.name + ":" + port {
      assert v == start + port;
    }
  }

  lemma RefersMeans(v: string, ts: set<Target>)
    ensures Refers(v, ts) <==> Names(v, ts)
  {
    hide IsReference;
    forall t | t in ts
      ensures IsReference(v, t) <==>
                v == t.name || (t.section == TagOwners && exists port: string :: v == t.name + ":" + port) {
      ReferenceMeans(v, t);
    }
  }

  lemma {:induction false} WithoutMeans(values: seq<string>, ts: set<Target>)
    ensures Pruned(Without(values, ts), values, ts)
  {
    hide Refers, Names;
    var kept := v => !Names(v, ts);
    if values == [] {
      SelectsNone(kept);
    } else {
      var init, v := values[..|values| - 1], values[|values| - 1];
      WithoutMeans(init, ts);
      RefersMeans(v, ts);
      SelectsSnoc(Without(init, ts), init, v, kept);
      assert init + [v] == values;
      assert Without(init, ts) + [] == Without(init, ts);
    }
  }

  lemma Counts(values: seq<string>, ts: set<Target>)
    ensures |Without(values, ts)| == |values| <==> !SomeNamed(values, ts)
    ensures Without(values, ts) == [] <==> AllNamed(values, ts)
    ensures AnyRefers(values, ts) <==> SomeNamed(values, ts)
    ensures !SomeNamed(values, ts) ==> Without(values, ts) == values
  {
    hide Refers, Names;
    forall v ensures Refers(v, ts) <==> Names(v, ts) {
      RefersMeans(v, ts);
    }
    WithoutLength(values, ts);
    WithoutMeans(values, ts);
    var out := Without(values, ts);
    var from :| PickedBy(out, values, from, v => !Names(v, ts));
    if out == [] {
      forall v | v in values ensures Names(v, ts) {
        var k :| 0 <= k < |values| && values[k] == v;
        assert !Names(v, ts) ==> k in from;
      }
    } else {
      assert out[0] in values && !Names(out[0], ts);
    }
  }

  // ----- Entries

  /** A rule goes when a side loses its last entry to the deletion; otherwise it keeps what is not named. */
  lemma RuleCleaned(r: AclRule, ts: set<Target>)
    ensures var c := CleanRule(r, ts);
            && (c.None? <==> (SomeNamed(r.src, ts) || SomeNamed(r.dst, ts))
                             && (AllNamed(r.src, ts) || AllNamed(r.dst, ts)))
            && (c.Some? ==> Pruned(c.value.src, r.src, ts) && Pruned(c.value.dst, r.dst, ts)
                            && c.value.rest == r.rest && c.value.keys == r.keys)
  {
    hide Without, Pruned;
    BothSides(r.src, r.dst, ts);
  }

  lemma BothSides(src: seq<string>, dst: seq<string>, ts: set<Target>)
    ensures Pruned(Without(src, ts), src, ts) && Pruned(Without(dst, ts), dst, ts)
    ensures |Without(src, ts)| == |src| <==> !SomeNamed(src, ts)
    ensures |Without(dst, ts)| == |dst| <==> !SomeNamed(dst, ts)
    ensures !SomeNamed(src, ts) ==> Without(src, ts) == src
    ensures !SomeNamed(dst, ts) ==> Without(dst, ts) == dst
    ensures Without(src, ts) == [] <==> AllNamed(src, ts)
    ensures Without(dst, ts) == [] <==> AllNamed(dst, ts)
  {
    Counts(src, ts);
    Counts(dst, ts);
    WithoutMeans(src, ts);
    WithoutMeans(dst, ts);
  }

  /** A grant also goes when it is routed via a named tag. */
  lemma GrantCleaned(g: Grant, ts: set<Target>)
    ensures var c := CleanGrant(g, ts);
            && (c.None? <==>
                  || (g.via.Some? && SomeNamed(g.via.value, ts))
                  || ((SomeNamed(g.src, ts) || SomeNamed(g.dst, ts)) && (AllNamed(g.src, ts) || AllNamed(g.dst, ts))))
            && (c.Some? ==> Pruned(c.value.src, g.src, ts) && Pruned(c.value.dst, g.dst, ts)
                            && c.value.via == g.via && c.value.rest == g.rest && c.value.keys == g.keys)
  {
    hide Without, Pruned, AnyRefers;
    BothSides(g.src, g.dst, ts);
    Counts(OrNone(g.via), ts);
  }

  lemma SshCleaned(r: SshRule, ts: set<Target>)
    ensures var c := CleanSsh(r, ts);
            && (c.None? <==> (SomeNamed(r.src, ts) || SomeNamed(r.dst, ts))
                             && (AllNamed(r.src, ts) || AllNamed(r.dst, ts)))
            && (c.Some? ==> Pruned(c.value.src, r.src, ts) && Pruned(c.value.dst, r.dst, ts)
                            && c.value.rest == r.rest && c.value.keys == r.keys)
  {
    hide Without, Pruned;
    BothSides(r.src, r.dst, ts);
  }

  /** A route goes with its last approver; who may approve exit nodes may end up empty. */
  lemma AutoCleaned(a: AutoApprovers, ts: set<Target>)
    ensures var c := CleanAuto(a, ts);
            && c.rest == a.rest && (c.routes.Some? <==> a.routes.Some?) && (c.exitNode.Some? <==> a.exitNode.Some?)
            && (a.exitNode.Some? ==> Pruned(c.exitNode.value, a.exitNode.value, ts))
            && (a.routes.Some? ==> forall route ::
                  && (route in c.routes.value <==>
                        && route in a.routes.value
                        && !(a.routes.value[route] != [] && AllNamed(a.routes.value[route], ts)))
                  && (route in c.routes.value ==> Pruned(c.routes.value[route], a.routes.value[route], ts)))
  {
    hide Without, Pruned, Names;
    forall xs ensures |Without(xs, ts)| == |xs| <==> !SomeNamed(xs, ts)
      ensures Pruned(Without(xs, ts), xs, ts)
      ensures Without(xs, ts) == [] <==> AllNamed(xs, ts)
      ensures !SomeNamed(xs, ts) ==> Without(xs, ts) == xs {
      Counts(xs, ts);
      WithoutMeans(xs, ts);
    }
    forall xs ensures CleanRoute(xs, ts).None? <==> xs != [] && AllNamed(xs, ts)
      ensures CleanRoute(xs, ts).Some? ==> Pruned(CleanRoute(xs, ts).value, xs, ts) {
      assert xs != [] && AllNamed(xs, ts) ==> xs[0] in xs;
    }
    hide CleanRoute, AllNamed, SomeNamed;
  }

  /** A list of a test after cleaning: pruned, and not there at all when nothing is left. */
  ghost predicate ListLeft(out: Option<seq<string>>, list: Option<seq<string>>, ts: set<Target>) {
    var before := if list.Some? then list.value else [];
    if AllNamed(before, ts) then out.None? else out.Some? && Pruned(out.value, before, ts)
  }

  /** The keys of a rewritten test: its lists come last, an empty one not at all. */
  ghost predicate KeysLeft(out: seq<string>, keys: seq<string>, accept: bool, deny: bool) {
    var lists := (if accept then ["accept"] else []) + if deny then ["deny"] else [];
    var n := |out| - |lists|;
    n >= 0 && out[n..] == lists && Selects(out[..n], keys, k => k != "accept" && k != "deny")
  }

  lemma {:induction false} OthersKept(keys: seq<string>)
    ensures Selects(WithoutLists(keys), keys, k => k != "accept" && k != "deny")
  {
    var kept := (k: string) => k != "accept" && k != "deny";
    if keys == [] {
      SelectsNone(kept);
    } else {
      var init, k := keys[..|keys| - 1], keys[|keys| - 1];
      OthersKept(init);
      SelectsSnoc(WithoutLists(init), init, k, kept);
      assert init + [k] == keys;
    }
  }

  lemma KeysCleaned(keys: seq<string>, accept: seq<string>, deny: seq<string>)
    ensures KeysLeft(ListsLast(keys, accept, deny), keys, accept != [], deny != [])
  {
    hide WithoutLists, Selects;
    OthersKept(keys);
    var lists := (if accept != [] then ["accept"] else []) + if deny != [] then ["deny"] else [];
    var out := ListsLast(keys, accept, deny);
    assert out == WithoutLists(keys) + lists;
    assert out[..|out| - |lists|] == WithoutLists(keys);
  }

  /**
   A policy test goes with its source, or when its lists lose their last entries; one that names no target stays
   as it is, and any other keeps what is not named.
   */
  lemma TestCleaned(t: AclTest, ts: set<Target>)
    ensures var c, accept, deny := CleanTest(t, ts), OrNone(t.accept), OrNone(t.deny);
            && (c.None? <==>
                  || Names(t.src, ts)
                  || ((SomeNamed(accept, ts) || SomeNamed(deny, ts)) && AllNamed(accept, ts) && AllNamed(deny, ts)))
            && (c.Some? && !SomeNamed(accept, ts) && !SomeNamed(deny, ts) ==> c.value == t)
            && (c.Some? && (SomeNamed(accept, ts) || SomeNamed(deny, ts)) ==>
                  && c.value.src == t.src && c.value.rest == t.rest
                  && ListLeft(c.value.accept, t.accept, ts) && ListLeft(c.value.deny, t.deny, ts)
                  && KeysLeft(c.value.keys, t.keys, !AllNamed(accept, ts), !AllNamed(deny, ts)))
  {
    hide Without, Pruned, Refers, Names, Selects, WithoutLists;
    RefersMeans(t.src, ts);
    BothSides(OrNone(t.accept), OrNone(t.deny), ts);
    KeysCleaned(t.keys, Without(OrNone(t.accept), ts), Without(OrNone(t.deny), ts));
    hide AllNamed, SomeNamed, KeysLeft, ListsLast;
  }

  /** An SSH test goes with its source or its last destination, or when it had none. */
  lemma SshTestCleaned(t: SshTest, ts: set<Target>)
    ensures var c := CleanSshTest(t, ts);
            && (c.None? <==> Names(t.src, ts) || AllNamed(t.dst, ts))
            && (c.Some? ==> Pruned(c.value.dst, t.dst, ts)
                            && c.value.src == t.src && c.value.rest == t.rest && c.value.keys == t.keys)
  {
    hide Without, Pruned, Refers, Names;
    RefersMeans(t.src, ts);
    Counts(t.dst, ts);
    WithoutMeans(t.dst, ts);
  }

  // ----- Lists and the document

  ghost function Stays<T(!new)>(f: T -> Option<T>): T -> bool {
    x => f(x).Some?
  }

  /** Every entry that is not dropped, in order, as it is rewritten. */
  ghost predicate Rewrites<T(!new)>(out: seq<T>, xs: seq<T>, f: T -> Option<T>) {
    exists kept :: Selects(kept, xs, Stays(f)) && |kept| == |out|
                   && forall i :: 0 <= i < |out| ==> f(kept[i]) == Some(out[i])
  }

  lemma {:induction false} EachRewritten<T(!new)>(xs: seq<T>, f: T -> Option<T>)
    ensures Rewrites(FlatMap(xs, f), xs, f)
  {
    hide Selects;
    if xs == [] {
      SelectsNone(Stays(f));
      assert Selects([], xs, Stays(f));
    } else {
      var init, x := xs[..|xs| - 1], xs[|xs| - 1];
      EachRewritten(init, f);
      var out := FlatMap(init, f);
      var kept :| Selects(kept, init, Stays(f)) && |kept| == |out|
                  && forall i :: 0 <= i < |out| ==> f(kept[i]) == Some(out[i]);
      SelectsSnoc(kept, init, x, Stays(f));
      assert init + [x] == xs;
      var more := kept + if f(x).Some? then [x] else [];
      assert Selects(more, xs, Stays(f));
    }
  }

  ghost predicate ListCleaned<T(!new)>(out: Option<seq<T>>, xs: Option<seq<T>>, f: T -> Option<T>) {
    if xs.None? then out.None? else out.Some? && Rewrites(out.value, xs.value, f)
  }

  /** One round rewrites every list by its entries, and leaves groups, hosts and owners alone. */
  lemma DocumentCleaned(s: Schema, ts: set<Target>)
    ensures var c := Clean(s, ts);
            && c.groups == s.groups && c.hosts == s.hosts && c.tagOwners == s.tagOwners
            && ListCleaned(c.acls, s.acls, r => CleanRule(r, ts))
            && ListCleaned(c.grants, s.grants, g => CleanGrant(g, ts))
            && ListCleaned(c.ssh, s.ssh, r => CleanSsh(r, ts))
            && ListCleaned(c.tests, s.tests, t => CleanTest(t, ts))
            && ListCleaned(c.sshTests, s.sshTests, t => CleanSshTest(t, ts))
            && (if s.autoApprovers.None? then c.autoApprovers.None?
                else c.autoApprovers == Some(CleanAuto(s.autoApprovers.value, ts)))
  {
    hide CleanRule, CleanGrant, CleanSsh, CleanTest, CleanSshTest, CleanAuto, FlatMap, Rewrites;
    EachRewritten(OrNone(s.acls), r => CleanRule(r, ts));
    EachRewritten(OrNone(s.grants), g => CleanGrant(g, ts));
    EachRewritten(OrNone(s.ssh), r => CleanSsh(r, ts));
    EachRewritten(OrNone(s.tests), t => CleanTest(t, ts));
    EachRewritten(OrNone(s.sshTests), t => CleanSshTest(t, ts));
  }

  // ----- What is counted as a change

  lemma {:induction false} CountMeans<T>(xs: seq<T>, f: T -> Option<T>)
    ensures |FlatMap(xs, f)| <= |xs|
    ensures Count(xs, f) == 0 ==> FlatMap(xs, f) == xs
    ensures FlatMap(xs, f) == xs ==> Count(xs, f) == 0
  {
    if xs != [] {
      var init, x := xs[..|xs| - 1], xs[|xs| - 1];
      CountMeans(init, f);
      assert xs == init + [x];
      if FlatMap(xs, f) == xs {
        assert f(x).Some? && FlatMap(xs, f)[|init|] == f(x).value && FlatMap(init, f) == FlatMap(xs, f)[..|init|];
      }
    }
  }

  /** A round reports a change if and only if it changes the document. */
  lemma ChangesMean(s: Schema, ts: set<Target>)
    ensures Changes(s, ts) == 0 <==> Clean(s, ts) == s
  {
    hide CleanRule, CleanGrant, CleanSsh, CleanTest, CleanSshTest, FlatMap, Count, Without, CleanRoutes, ChangedRoutes;
    CountMeans(OrNone(s.acls), r => CleanRule(r, ts));
    CountMeans(OrNone(s.grants), g => CleanGrant(g, ts));
    CountMeans(OrNone(s.ssh), r => CleanSsh(r, ts));
    CountMeans(OrNone(s.tests), t => CleanTest(t, ts));
    CountMeans(OrNone(s.sshTests), t => CleanSshTest(t, ts));
    if s.autoApprovers.Some? {
      var a := s.autoApprovers.value;
      WithoutLength(OrNone(a.exitNode), ts);
      if a.routes.Some? {
        RoutesChange(a.routes.value, ts);
      }
    }
  }

  lemma RoutesChange(routes: Entries, ts: set<Target>)
    ensures |ChangedRoutes(routes, ts)| == 0 <==> CleanRoutes(routes, ts) == routes
  {
    hide CleanRoute;
    if ChangedRoutes(routes, ts) == {} {
      forall route | route in routes ensures CleanRoute(routes[route], ts) == Some(routes[route]) {
        assert route !in ChangedRoutes(routes, ts);
      }
    } else {
      var route :| route in ChangedRoutes(routes, ts);
      assert route in CleanRoutes(routes, ts) ==> CleanRoutes(routes, ts)[route] != routes[route];
    }
  }

  // ----- What goes with a target

  /** With a group go the tags that it alone owns; with a tag, nothing more. */
  lemma RemovedMeans(s: Schema, t: Target, other: Target)
    ensures other in Removed(s, t) <==>
              || other == t
              || (t.section == Groups && other.section == TagOwners && other.name in OrEmpty(s.tagOwners)
                  && OrEmpty(s.tagOwners)[other.name] != []
                  && forall o :: o in OrEmpty(s.tagOwners)[other.name] ==> o == t.name)
  {
    hide WithoutOwner;
    var owners := OrEmpty(s.tagOwners);
    if other.section == TagOwners {
      assert other == Target(TagOwners, other.name);
      if other.name in owners {
        AloneOwns(owners[other.name], t.name);
      }
    }
  }

  lemma AloneOwns(owners: seq<string>, name: string)
    ensures WithoutOwner(owners, name) == [] <==> forall o :: o in owners ==> o == name
    ensures name in owners ==> owners != []
    ensures owners != [] && (forall o :: o in owners ==> o == name) ==> name in owners
  {
    OwnersLeft(owners, name);
    var left := WithoutOwner(owners, name);
    hide WithoutOwner;
    var from :| PickedBy(left, owners, from, o => o != name);
    assert left != [] ==> left[0] in owners && left[0] != name;
    forall o | o in owners && o != name ensures left != [] {
      var k :| 0 <= k < |owners| && owners[k] == o;
      assert k in from;
    }
    assert owners != [] ==> owners[0] in owners;
  }

  lemma {:induction false} OwnersLeft(owners: seq<string>, name: string)
    ensures Selects(WithoutOwner(owners, name), owners, o => o != name)
  {
    var others := (o: string) => o != name;
    if owners == [] {
      SelectsNone(others);
    } else {
      var init, o := owners[..|owners| - 1], owners[|owners| - 1];
      OwnersLeft(init, name);
      SelectsSnoc(WithoutOwner(init, name), init, o, others);
      assert init + [o] == owners;
    }
  }

  /** Groups and tag owners after a deletion: without what went, each tag left with its other owners. */
  lemma SectionsLeft(s: Schema, t: Target)
    requires Exists(s, t)
    ensures var c := Cascaded(s, t);
            && (c.groups.Some? <==> s.groups.Some?) && (c.tagOwners.Some? <==> s.tagOwners.Some?)
            && (forall g :: g in OrEmpty(c.groups) <==> g in OrEmpty(s.groups) && Target(Groups, g) !in Removed(s, t))
            && (forall g :: g in OrEmpty(c.groups) ==> OrEmpty(c.groups)[g] == OrEmpty(s.groups)[g])
            && (forall tag :: tag in OrEmpty(c.tagOwners) <==>
                  tag in OrEmpty(s.tagOwners) && Target(TagOwners, tag) !in Removed(s, t))
            && (forall tag :: tag in OrEmpty(c.tagOwners) ==>
                  Selects(OrEmpty(c.tagOwners)[tag], OrEmpty(s.tagOwners)[tag],
                          o => t.section == TagOwners || o != t.name))
  {
    var u := Uncleaned(s, t);
    DocumentCleaned(u, Removed(s, t));
    hide Clean, WithoutOwner, Selects;
    forall tag | tag in OrEmpty(u.tagOwners)
      ensures Selects(OrEmpty(u.tagOwners)[tag], OrEmpty(s.tagOwners)[tag],
                      o => t.section == TagOwners || o != t.name) {
      var owners := OrEmpty(s.tagOwners)[tag];
      if t.section == Groups {
        OwnersLeft(owners, t.name);
        SelectsSame(WithoutOwner(owners, t.name), owners, o => o != t.name,
            o => t.section == TagOwners || o != t.name);
      } else {
        SelectsAll(owners, o => t.section == TagOwners || o != t.name);
      }
    }
  }
}
