/** Deleting a group or tag together with everything that refers to it (ui/src/lib/policyDraft.ts). */
module Cascade {
  import opened Common
  import opened Strings
  import opened Json

  datatype Section = Groups | TagOwners

  datatype Target = Target(section: Section, name: string)

  type Entries = map<string, seq<string>>

  /** The fields the cleanup does not read: under none of the names it does. */
  type RuleRest = m: Fields | m.Keys !! {"src", "dst"} witness map[]
  type GrantRest = m: Fields | m.Keys !! {"src", "dst", "via"} witness map[]
  type AutoRest = m: Fields | m.Keys !! {"routes", "exitNode"} witness map[]
  type TestRest = m: Fields | m.Keys !! {"src", "accept", "deny"} witness map[]

  /** The fields the cleanup reads, the others as they are, and the order of an entry's keys. */
  datatype AclRule = AclRule(src: seq<string>, dst: seq<string>, rest: RuleRest, keys: seq<string>)
  datatype Grant = Grant(
    src: seq<string>, dst: seq<string>, via: Option<seq<string>>, rest: GrantRest, keys: seq<string>)
  datatype SshRule = SshRule(src: seq<string>, dst: seq<string>, rest: RuleRest, keys: seq<string>)
  datatype AutoApprovers = AutoApprovers(routes: Option<Entries>, exitNode: Option<seq<string>>, rest: AutoRest)
  datatype AclTest = AclTest(
    src: string, accept: Option<seq<string>>, deny: Option<seq<string>>, rest: TestRest, keys: seq<string>)
  datatype SshTest = SshTest(src: string, dst: seq<string>, rest: RuleRest, keys: seq<string>)

  datatype Schema = Schema(
    groups: Option<Entries>, hosts: Option<map<string, string>>, tagOwners: Option<Entries>,
    acls: Option<seq<AclRule>>, grants: Option<seq<Grant>>, ssh: Option<seq<SshRule>>,
    autoApprovers: Option<AutoApprovers>, tests: Option<seq<AclTest>>, sshTests: Option<seq<SshTest>>)

  // ----- References

  /** A tag is also referred to with a port. */
  predicate IsReference(value: string, t: Target) {
    value == t.name || (t.section == TagOwners && HasPrefix(value, t.name + ":"))
  }

  /** A reference to any of some targets. */
  predicate Refers(value: string, ts: set<Target>) {
    exists t <- ts :: IsReference(value, t)
  }

  predicate AnyRefers(values: seq<string>, ts: set<Target>) {
    exists v <- values :: Refers(v, ts)
  }

  function Without(values: seq<string>, ts: set<Target>): seq<string> {
    if values == [] then []
    else
      var v := values[|values| - 1];
      Without(values[..|values| - 1], ts) + if Refers(v, ts) then [] else [v]
  }

  function OrNone<T>(o: Option<seq<T>>): seq<T> {
    match o case None => [] case Some(xs) => xs
  }

  /** An array with some entries dropped and some rewritten in place. */
  function FlatMap<T>(xs: seq<T>, f: T -> Option<T>): seq<T> {
    if xs == [] then []
    else
      FlatMap(xs[..|xs| - 1], f) + match f(xs[|xs| - 1]) case None => [] case Some(y) => [y]
  }

  function Count<T(==)>(xs: seq<T>, f: T -> Option<T>): nat {
    if xs == [] then 0
    else Count(xs[..|xs| - 1], f) + if f(xs[|xs| - 1]) == Some(xs[|xs| - 1]) then 0 else 1
  }

  // ----- One entry. The program cleans for one target at a time; a set of targets says what several rounds do.

  function CleanRule(r: AclRule, ts: set<Target>): Option<AclRule> {
    var src, dst := Without(r.src, ts), Without(r.dst, ts);
    if |src| == |r.src| && |dst| == |r.dst| then Some(r)
    else if src == [] || dst == [] then None
    else Some(r.(src := src, dst := dst))
  }

  function CleanGrant(g: Grant, ts: set<Target>): Option<Grant> {
    var src, dst := Without(g.src, ts), Without(g.dst, ts);
    var via := AnyRefers(OrNone(g.via), ts);
    if |src| == |g.src| && |dst| == |g.dst| && !via then Some(g)
    else if src == [] || dst == [] || via then None
    else Some(g.(src := src, dst := dst))
  }

  function CleanSsh(r: SshRule, ts: set<Target>): Option<SshRule> {
    var src, dst := Without(r.src, ts), Without(r.dst, ts);
    if |src| == |r.src| && |dst| == |r.dst| then Some(r)
    else if src == [] || dst == [] then None
    else Some(r.(src := src, dst := dst))
  }

  function CleanRoute(approvers: seq<string>, ts: set<Target>): Option<seq<string>> {
    var left := Without(approvers, ts);
    if |left| == |approvers| then Some(approvers) else if left == [] then None else Some(left)
  }

  function CleanRoutes(routes: Entries, ts: set<Target>): Entries {
    map route <- routes | CleanRoute(routes[route], ts).Some? :: CleanRoute(routes[route], ts).value
  }

  function CleanAuto(a: AutoApprovers, ts: set<Target>): AutoApprovers {
    a.(routes := if a.routes.Some? then Some(CleanRoutes(a.routes.value, ts)) else None,
       exitNode := if a.exitNode.Some? then Some(Without(a.exitNode.value, ts)) else None)
  }

  function IfAny(xs: seq<string>): Option<seq<string>> {
    if xs == [] then None else Some(xs)
  }

  function WithoutLists(keys: seq<string>): seq<string> {
    if keys == [] then []
    else
      var k := keys[|keys| - 1];
      WithoutLists(keys[..|keys| - 1]) + if k == "accept" || k == "deny" then [] else [k]
  }

  /** A cleaned test is written anew: its lists come last, and an empty one not at all. */
  function ListsLast(keys: seq<string>, accept: seq<string>, deny: seq<string>): seq<string> {
    WithoutLists(keys) + (if accept == [] then [] else ["accept"]) + if deny == [] then [] else ["deny"]
  }

  function CleanTest(test: AclTest, ts: set<Target>): Option<AclTest> {
    if Refers(test.src, ts) then None
    else
      var accept, deny := Without(OrNone(test.accept), ts), Without(OrNone(test.deny), ts);
      if |accept| == |OrNone(test.accept)| && |deny| == |OrNone(test.deny)| then Some(test)
      else if accept == [] && deny == [] then None
      else Some(test.(accept := IfAny(accept), deny := IfAny(deny), keys := ListsLast(test.keys, accept, deny)))
  }

  /** A test without a destination goes in any round, referring or not. */
  function CleanSshTest(test: SshTest, ts: set<Target>): Option<SshTest> {
    var dst := Without(test.dst, ts);
    if Refers(test.src, ts) || dst == [] then None
    else if |dst| == |test.dst| then Some(test)
    else Some(test.(dst := dst))
  }

  // ----- The whole document

  function CleanList<T>(xs: Option<seq<T>>, f: T -> Option<T>): Option<seq<T>> {
    match xs case None => None case Some(v) => Some(FlatMap(v, f))
  }

  function Clean(s: Schema, ts: set<Target>): Schema {
    s.(acls := CleanList(s.acls, r => CleanRule(r, ts)),
       grants := CleanList(s.grants, g => CleanGrant(g, ts)),
       ssh := CleanList(s.ssh, r => CleanSsh(r, ts)),
       autoApprovers := if s.autoApprovers.Some? then Some(CleanAuto(s.autoApprovers.value, ts)) else None,
       tests := CleanList(s.tests, t => CleanTest(t, ts)),
       sshTests := CleanList(s.sshTests, t => CleanSshTest(t, ts)))
  }

  function ChangedRoutes(routes: Entries, ts: set<Target>): set<string> {
    set route <- routes | CleanRoute(routes[route], ts) != Some(routes[route])
  }

  /** How often one round reports a change. */
  function Changes(s: Schema, ts: set<Target>): nat {
    Count(OrNone(s.acls), r => CleanRule(r, ts)) + Count(OrNone(s.grants), g => CleanGrant(g, ts)) +
    Count(OrNone(s.ssh), r => CleanSsh(r, ts)) + Count(OrNone(s.tests), t => CleanTest(t, ts)) +
    Count(OrNone(s.sshTests), t => CleanSshTest(t, ts)) +
    match s.autoApprovers
    case None => 0
    case Some(a) =>
      (if a.routes.Some? then |ChangedRoutes(a.routes.value, ts)| else 0) +
      if |Without(OrNone(a.exitNode), ts)| == |OrNone(a.exitNode)| then 0 else 1
  }

  // ----- What the deletion must come to

  function OrEmpty(e: Option<Entries>): Entries {
    match e case None => map[] case Some(m) => m
  }

  predicate Exists(s: Schema, t: Target) {
    match t.section
    case Groups => t.name in OrEmpty(s.groups)
    case TagOwners => t.name in OrEmpty(s.tagOwners)
  }

  function WithoutOwner(owners: seq<string>, name: string): seq<string> {
    if owners == [] then []
    else WithoutOwner(owners[..|owners| - 1], name) + if owners[|owners| - 1] == name then []
        else [owners[|owners| - 1]]
  }

  /** The tags nobody owns once the group is gone. */
  function Emptied(tagOwners: Entries, group: string): set<string> {
    set tag <- tagOwners | group in tagOwners[tag] && WithoutOwner(tagOwners[tag], group) == []
  }

  /** Everything that goes with a target. */
  function Removed(s: Schema, t: Target): set<Target> {
    match t.section
    case Groups => {t} + set tag <- Emptied(OrEmpty(s.tagOwners), t.name) :: Target(TagOwners, tag)
    case TagOwners => {t}
  }

  function OwnersAfter(tagOwners: Entries, group: string): Entries {
    map tag <- tagOwners | tag !in Emptied(tagOwners, group) :: WithoutOwner(tagOwners[tag], group)
  }

  function WithoutKey(m: Option<Entries>, name: string): Option<Entries> {
    match m case None => None case Some(e) => Some(e - {name})
  }

  /** The document with the keys taken out and the references still in. */
  function Uncleaned(s: Schema, t: Target): Schema {
    match t.section
    case Groups => s.(groups := WithoutKey(s.groups, t.name), tagOwners := if s.tagOwners.None? then None
        else Some(OwnersAfter(s.tagOwners.value, t.name)))
    case TagOwners => s.(tagOwners := WithoutKey(s.tagOwners, t.name))
  }

  function Cascaded(s: Schema, t: Target): Schema {
    if !Exists(s, t) then s else Clean(Uncleaned(s, t), Removed(s, t))
  }

  // ----- Rounds compose

  lemma {:induction false} WithoutTwice(values: seq<string>, a: set<Target>, b: set<Target>)
    ensures Without(Without(values, a), b) == Without(values, a + b)
  {
    if values != [] {
      var init, v := values[..|values| - 1], values[|values| - 1];
      WithoutTwice(init, a, b);
      RefersEither(v, a, b);
      if !Refers(v, a) {
        assert (Without(init, a) + [v])[..|Without(init, a)|] == Without(init, a);
      } else {
        assert Without(init, a) + [] == Without(init, a);
      }
    }
  }

  lemma RefersEither(v: string, a: set<Target>, b: set<Target>)
    ensures Refers(v, a + b) <==> Refers(v, a) || Refers(v, b)
  {
    hide IsReference;
  }

  lemma AnyEither(values: seq<string>, a: set<Target>, b: set<Target>)
    ensures AnyRefers(values, a + b) <==> AnyRefers(values, a) || AnyRefers(values, b)
  {
    hide Refers;
    forall v | v in values ensures Refers(v, a + b) <==> Refers(v, a) || Refers(v, b) {
      RefersEither(v, a, b);
    }
  }

  /** Filtering keeps the length exactly when there is nothing to filter; then it keeps everything. */
  lemma {:induction false} WithoutLength(values: seq<string>, ts: set<Target>)
    ensures |Without(values, ts)| <= |values|
    ensures |Without(values, ts)| == |values| <==> !AnyRefers(values, ts)
    ensures !AnyRefers(values, ts) ==> Without(values, ts) == values
    ensures !AnyRefers(Without(values, ts), ts)
    ensures forall v :: v in Without(values, ts) ==> v in values
  {
    hide Refers;
    if values != [] {
      var init, v := values[..|values| - 1], values[|values| - 1];
      WithoutLength(init, ts);
      assert values == init + [v];
      assert AnyRefers(values, ts) <==> AnyRefers(init, ts) || Refers(v, ts);
    }
  }

  lemma Lengths(values: seq<string>, a: set<Target>, b: set<Target>)
    ensures Without(Without(values, a), b) == Without(values, a + b)
    ensures |Without(values, a + b)| == |values| <==>
              |Without(values, a)| == |values| && |Without(Without(values, a), b)| == |Without(values, a)|
    ensures |Without(values, a)| == |values| ==> Without(values, a) == values
    ensures |Without(Without(values, a), b)| == |Without(values, a)| ==> Without(values, a + b) == Without(values, a)
    ensures Without(values, a) == [] ==> Without(values, a + b) == []
  {
    hide AnyRefers, Refers;
    WithoutTwice(values, a, b);
    WithoutLength(values, a);
    WithoutLength(Without(values, a), b);
    WithoutLength(values, a + b);
  }

  lemma WithoutSnoc(init: seq<string>, v: string, ts: set<Target>)
    ensures Without(init + [v], ts) == if Refers(v, ts) then Without(init, ts) else Without(init, ts) + [v]
  {
    hide Refers;
    assert (init + [v])[..|init|] == init;
    assert Without(init, ts) + [] == Without(init, ts);
  }

  lemma FlatMapNone<T>(f: T -> Option<T>)
    ensures FlatMap([], f) == []
  {
  }

  lemma FlatMapSnoc<T>(init: seq<T>, x: T, f: T -> Option<T>)
    ensures FlatMap(init + [x], f) == FlatMap(init, f) + match f(x) case None => [] case Some(y) => [y]
  {
    assert (init + [x])[..|init|] == init;
  }

  /** One entry through two rounds. */
  ghost function Then<T>(first: Option<T>, g: T -> Option<T>): Option<T> {
    match first case None => None case Some(y) => g(y)
  }

  lemma RuleTwice(r: AclRule, a: set<Target>, b: set<Target>)
    ensures Then(CleanRule(r, a), x => CleanRule(x, b)) == CleanRule(r, a + b)
  {
    hide Without;
    Lengths(r.src, a, b);
    Lengths(r.dst, a, b);
  }

  lemma GrantTwice(g: Grant, a: set<Target>, b: set<Target>)
    ensures Then(CleanGrant(g, a), x => CleanGrant(x, b)) == CleanGrant(g, a + b)
  {
    hide Without, AnyRefers;
    Lengths(g.src, a, b);
    Lengths(g.dst, a, b);
    AnyEither(OrNone(g.via), a, b);
  }

  lemma SshTwice(r: SshRule, a: set<Target>, b: set<Target>)
    ensures Then(CleanSsh(r, a), x => CleanSsh(x, b)) == CleanSsh(r, a + b)
  {
    hide Without;
    Lengths(r.src, a, b);
    Lengths(r.dst, a, b);
  }

  lemma RouteTwice(approvers: seq<string>, a: set<Target>, b: set<Target>)
    ensures Then(CleanRoute(approvers, a), x => CleanRoute(x, b)) == CleanRoute(approvers, a + b)
  {
    hide Without;
    Lengths(approvers, a, b);
  }

  lemma TestTwice(t: AclTest, a: set<Target>, b: set<Target>)
    ensures Then(CleanTest(t, a), x => CleanTest(x, b)) == CleanTest(t, a + b)
  {
    hide Without, Refers, ListsLast;
    RefersEither(t.src, a, b);
    Lengths(OrNone(t.accept), a, b);
    Lengths(OrNone(t.deny), a, b);
    WithoutNone(b);
    var accept, deny := Without(OrNone(t.accept), a), Without(OrNone(t.deny), a);
    ListsTwice(t.keys, accept, deny, Without(accept, b), Without(deny, b));
  }

  /** Writing the lists last twice is writing them last once. */
  lemma ListsTwice(keys: seq<string>, accept: seq<string>, deny: seq<string>, lessAccept: seq<string>,
      lessDeny: seq<string>)
    ensures ListsLast(ListsLast(keys, accept, deny), lessAccept, lessDeny) == ListsLast(keys, lessAccept, lessDeny)
  {
    hide WithoutLists;
    NoLists(keys);
    var base := WithoutLists(keys);
    var first := base + if accept == [] then [] else ["accept"];
    NoListsSnoc(base, "accept");
    NoListsSnoc(first, "deny");
    assert ListsLast(keys, accept, deny) == first + if deny == [] then [] else ["deny"];
    assert first + [] == first && base + [] == base;
  }

  lemma NoListsSnoc(keys: seq<string>, name: string)
    requires name == "accept" || name == "deny"
    ensures WithoutLists(keys + [name]) == WithoutLists(keys)
  {
    assert (keys + [name])[..|keys|] == keys;
    assert WithoutLists(keys) + [] == WithoutLists(keys);
  }

  lemma {:induction false} NoLists(keys: seq<string>)
    ensures WithoutLists(WithoutLists(keys)) == WithoutLists(keys)
  {
    if keys != [] {
      var init, k := keys[..|keys| - 1], keys[|keys| - 1];
      NoLists(init);
      if k == "accept" || k == "deny" {
        assert WithoutLists(init) + [] == WithoutLists(init);
      } else {
        assert (WithoutLists(init) + [k])[..|WithoutLists(init)|] == WithoutLists(init);
      }
    }
  }

  lemma WithoutNone(ts: set<Target>)
    ensures Without([], ts) == []
  {
  }

  lemma SshTestTwice(t: SshTest, a: set<Target>, b: set<Target>)
    ensures Then(CleanSshTest(t, a), x => CleanSshTest(x, b)) == CleanSshTest(t, a + b)
  {
    hide Without, Refers;
    RefersEither(t.src, a, b);
    Lengths(t.dst, a, b);
  }

  lemma {:induction false} FlatMapTwice<T>(xs: seq<T>, f: T -> Option<T>, g: T -> Option<T>, h: T -> Option<T>)
    requires forall x :: x in xs ==> Then(f(x), g) == h(x)
    ensures FlatMap(FlatMap(xs, f), g) == FlatMap(xs, h)
  {
    if xs != [] {
      var init, x := xs[..|xs| - 1], xs[|xs| - 1];
      FlatMapTwice(init, f, g, h);
      if f(x).Some? {
        assert (FlatMap(init, f) + [f(x).value])[..|FlatMap(init, f)|] == FlatMap(init, f);
      } else {
        assert FlatMap(init, f) + [] == FlatMap(init, f);
      }
    }
  }

  lemma ListTwice<T>(xs: Option<seq<T>>, f: T -> Option<T>, g: T -> Option<T>, h: T -> Option<T>)
    requires forall x :: Then(f(x), g) == h(x)
    ensures CleanList(CleanList(xs, f), g) == CleanList(xs, h)
  {
    if xs.Some? {
      FlatMapTwice(xs.value, f, g, h);
    }
  }

  lemma RoutesTwice(routes: Entries, a: set<Target>, b: set<Target>)
    ensures CleanRoutes(CleanRoutes(routes, a), b) == CleanRoutes(routes, a + b)
  {
    hide CleanRoute;
    forall route | route in routes ensures Then(CleanRoute(routes[route], a), x => CleanRoute(x, b)) ==
        CleanRoute(routes[route], a + b) {
      RouteTwice(routes[route], a, b);
    }
  }

  lemma AutoTwice(auto: AutoApprovers, a: set<Target>, b: set<Target>)
    ensures CleanAuto(CleanAuto(auto, a), b) == CleanAuto(auto, a + b)
  {
    hide CleanRoutes, Without;
    if auto.routes.Some? {
      RoutesTwice(auto.routes.value, a, b);
    }
    if auto.exitNode.Some? {
      WithoutTwice(auto.exitNode.value, a, b);
    }
  }

  /** Two rounds are one round for both: so the order of the rounds cannot show. */
  lemma CleanTwice(s: Schema, a: set<Target>, b: set<Target>)
    ensures Clean(Clean(s, a), b) == Clean(s, a + b)
  {
    hide CleanRule, CleanGrant, CleanSsh, CleanAuto, CleanTest, CleanSshTest, CleanList;
    forall r ensures Then(CleanRule(r, a), x => CleanRule(x, b)) == CleanRule(r, a + b) { RuleTwice(r, a, b); }
    forall g ensures Then(CleanGrant(g, a), x => CleanGrant(x, b)) == CleanGrant(g, a + b) { GrantTwice(g, a, b); }
    forall r ensures Then(CleanSsh(r, a), x => CleanSsh(x, b)) == CleanSsh(r, a + b) { SshTwice(r, a, b); }
    forall t ensures Then(CleanTest(t, a), x => CleanTest(x, b)) == CleanTest(t, a + b) { TestTwice(t, a, b); }
    forall t ensures Then(CleanSshTest(t, a), x => CleanSshTest(x, b)) ==
        CleanSshTest(t, a + b) { SshTestTwice(t, a, b); }
    ListTwice(s.acls, r => CleanRule(r, a), r => CleanRule(r, b), r => CleanRule(r, a + b));
    ListTwice(s.grants, g => CleanGrant(g, a), g => CleanGrant(g, b), g => CleanGrant(g, a + b));
    ListTwice(s.ssh, r => CleanSsh(r, a), r => CleanSsh(r, b), r => CleanSsh(r, a + b));
    ListTwice(s.tests, t => CleanTest(t, a), t => CleanTest(t, b), t => CleanTest(t, a + b));
    ListTwice(s.sshTests, t => CleanSshTest(t, a), t => CleanSshTest(t, b), t => CleanSshTest(t, a + b));
    if s.autoApprovers.Some? {
      AutoTwice(s.autoApprovers.value, a, b);
    }
  }

  lemma CleanCommutes(s: Schema, a: set<Target>, b: set<Target>)
    ensures Clean(Clean(s, a), b) == Clean(Clean(s, b), a)
  {
    hide Clean;
    CleanTwice(s, a, b);
    CleanTwice(s, b, a);
    assert a + b == b + a;
  }

  // ----- Nothing refers to what is gone

  ghost predicate Silent(values: seq<string>, ts: set<Target>) {
    forall v :: v in values ==> !Refers(v, ts)
  }

  ghost predicate SilentEntries(m: Entries, ts: set<Target>) {
    forall k :: k in m ==> Silent(m[k], ts)
  }

  /** No cleaned position holds a reference to any of the targets. */
  ghost predicate NoReference(s: Schema, ts: set<Target>) {
    && (forall r :: r in OrNone(s.acls) ==> Silent(r.src, ts) && Silent(r.dst, ts))
    && (forall g :: g in OrNone(s.grants) ==> Silent(g.src, ts) && Silent(g.dst, ts) && Silent(OrNone(g.via), ts))
    && (forall r :: r in OrNone(s.ssh) ==> Silent(r.src, ts) && Silent(r.dst, ts))
    && (s.autoApprovers.Some? ==>
          SilentEntries(OrEmpty(s.autoApprovers.value.routes), ts) && Silent(OrNone(s.autoApprovers.value.exitNode),
              ts))
    && (forall t :: t in OrNone(s.tests) ==>
          !Refers(t.src, ts) && Silent(OrNone(t.accept), ts) && Silent(OrNone(t.deny), ts))
    && (forall t :: t in OrNone(s.sshTests) ==> !Refers(t.src, ts) && Silent(t.dst, ts))
  }

  lemma WithoutSilent(values: seq<string>, ts: set<Target>)
    ensures Silent(Without(values, ts), ts)
    ensures |Without(values, ts)| == |values| ==> Silent(values, ts)
    ensures !AnyRefers(values, ts) <==> Silent(values, ts)
  {
    hide Refers, Without;
    WithoutLength(values, ts);
  }

  lemma {:induction false} FromFlatMap<T>(xs: seq<T>, f: T -> Option<T>, y: T) returns (x: T)
    requires y in FlatMap(xs, f)
    ensures x in xs && f(x) == Some(y)
  {
    var init, last := xs[..|xs| - 1], xs[|xs| - 1];
    if y in FlatMap(init, f) {
      x := FromFlatMap(init, f, y);
    } else {
      x := last;
    }
  }

  lemma RuleSilent(r: AclRule, ts: set<Target>)
    ensures CleanRule(r, ts).Some? ==>
              var y := CleanRule(r, ts).value; Silent(y.src, ts) && Silent(y.dst, ts) && y.rest == r.rest
  {
    hide Silent, Without;
    WithoutSilent(r.src, ts);
    WithoutSilent(r.dst, ts);
  }

  lemma GrantSilent(g: Grant, ts: set<Target>)
    ensures CleanGrant(g, ts).Some? ==>
              var y := CleanGrant(g, ts).value; Silent(y.src, ts) && Silent(y.dst, ts) && Silent(OrNone(y.via), ts)
  {
    hide Silent, Without, AnyRefers;
    WithoutSilent(g.src, ts);
    WithoutSilent(g.dst, ts);
    WithoutSilent(OrNone(g.via), ts);
  }

  lemma SshSilent(r: SshRule, ts: set<Target>)
    ensures CleanSsh(r, ts).Some? ==> var y := CleanSsh(r, ts).value; Silent(y.src, ts) && Silent(y.dst, ts)
  {
    hide Silent, Without;
    WithoutSilent(r.src, ts);
    WithoutSilent(r.dst, ts);
  }

  lemma TestSilent(t: AclTest, ts: set<Target>)
    ensures CleanTest(t, ts).Some? ==>
              var y := CleanTest(t, ts).value;
              !Refers(y.src, ts) && Silent(OrNone(y.accept), ts) && Silent(OrNone(y.deny), ts)
  {
    hide Silent, Without, Refers;
    WithoutSilent(OrNone(t.accept), ts);
    WithoutSilent(OrNone(t.deny), ts);
    NothingSilent(ts);
  }

  lemma NothingSilent(ts: set<Target>)
    ensures Silent([], ts)
  {
  }

  lemma SshTestSilent(t: SshTest, ts: set<Target>)
    ensures CleanSshTest(t, ts).Some? ==> var y := CleanSshTest(t, ts).value; !Refers(y.src, ts) && Silent(y.dst, ts)
  {
    hide Silent, Without, Refers;
    WithoutSilent(t.dst, ts);
  }

  lemma AutoSilent(a: AutoApprovers, ts: set<Target>)
    ensures var y := CleanAuto(a, ts); SilentEntries(OrEmpty(y.routes), ts) && Silent(OrNone(y.exitNode), ts)
  {
    hide Silent, Without;
    if a.routes.Some? {
      forall route | route in a.routes.value ensures CleanRoute(a.routes.value[route], ts).Some? ==>
          Silent(CleanRoute(a.routes.value[route], ts).value, ts) {
        WithoutSilent(a.routes.value[route], ts);
      }
    }
    WithoutSilent(OrNone(a.exitNode), ts);
    NothingSilent(ts);
  }

  lemma CleanSilent(s: Schema, ts: set<Target>)
    ensures NoReference(Clean(s, ts), ts)
  {
    hide Silent, SilentEntries, Refers, CleanRule, CleanGrant, CleanSsh, CleanAuto, CleanTest, CleanSshTest, FlatMap;
    var c := Clean(s, ts);
    forall y | y in OrNone(c.acls) ensures Silent(y.src, ts) && Silent(y.dst, ts) {
      var x := FromFlatMap(s.acls.value, r => CleanRule(r, ts), y);
      RuleSilent(x, ts);
    }
    forall y | y in OrNone(c.grants) ensures Silent(y.src, ts) && Silent(y.dst, ts) && Silent(OrNone(y.via), ts) {
      var x := FromFlatMap(s.grants.value, g => CleanGrant(g, ts), y);
      GrantSilent(x, ts);
    }
    forall y | y in OrNone(c.ssh) ensures Silent(y.src, ts) && Silent(y.dst, ts) {
      var x := FromFlatMap(s.ssh.value, r => CleanSsh(r, ts), y);
      SshSilent(x, ts);
    }
    forall y | y in OrNone(c.tests) ensures !Refers(y.src, ts) && Silent(OrNone(y.accept), ts)
        && Silent(OrNone(y.deny), ts) {
      var x := FromFlatMap(s.tests.value, t => CleanTest(t, ts), y);
      TestSilent(x, ts);
    }
    forall y | y in OrNone(c.sshTests) ensures !Refers(y.src, ts) && Silent(y.dst, ts) {
      var x := FromFlatMap(s.sshTests.value, t => CleanSshTest(t, ts), y);
      SshTestSilent(x, ts);
    }
    if s.autoApprovers.Some? {
      AutoSilent(s.autoApprovers.value, ts);
    }
  }

  lemma {:induction false} NotAnOwner(owners: seq<string>, name: string)
    ensures name !in WithoutOwner(owners, name)
    ensures name !in owners ==> WithoutOwner(owners, name) == owners
  {
    if owners != [] {
      NotAnOwner(owners[..|owners| - 1], name);
      assert owners == owners[..|owners| - 1] + [owners[|owners| - 1]];
    }
  }

  /**
   After deleting a group or tag that is there: the target and every tag that lost its last owner
   are gone, no other tag is, no position refers to any of them, and no tag is owned by the group.
   */
  lemma CascadeCloses(s: Schema, t: Target)
    requires Exists(s, t)
    ensures var next := Cascaded(s, t);
            && NoReference(next, Removed(s, t))
            && (forall gone :: gone in Removed(s, t) ==> !Exists(next, gone))
            && (forall kept :: Exists(s, kept) && kept !in Removed(s, t) ==> Exists(next, kept))
            && (t.section == Groups ==> forall tag :: tag in OrEmpty(next.tagOwners) ==>
                t.name !in OrEmpty(next.tagOwners)[tag])
  {
    hide NoReference, Clean;
    CleanKeepsMaps(Uncleaned(s, t), Removed(s, t));
    CleanSilent(Uncleaned(s, t), Removed(s, t));
    if t.section == Groups {
      forall tag | tag in OrEmpty(s.tagOwners) ensures t.name !in WithoutOwner(OrEmpty(s.tagOwners)[tag], t.name) {
        NotAnOwner(OrEmpty(s.tagOwners)[tag], t.name);
      }
    }
  }

  /**
   Owners are cleaned of the group and of nothing else: after a deletion a kept tag has every other
   owner it had, a tag deleted with it included.
   */
  lemma OwnersKept(s: Schema, t: Target, tag: string, owner: string)
    requires Exists(s, t)
    ensures var before, after := OrEmpty(s.tagOwners), OrEmpty(Cascaded(s, t).tagOwners);
            tag in after && owner in after[tag] <==>
            tag in before && owner in before[tag] && Target(TagOwners, tag) !in Removed(s, t)
                && Target(Groups, owner) != t
  {
    hide Clean;
    CleanKeepsMaps(Uncleaned(s, t), Removed(s, t));
    if t.section == Groups && tag in OrEmpty(s.tagOwners) {
      OtherOwners(OrEmpty(s.tagOwners)[tag], t.name, owner);
    }
  }

  lemma {:induction false} OtherOwners(owners: seq<string>, name: string, owner: string)
    ensures owner in WithoutOwner(owners, name) <==> owner in owners && owner != name
  {
    if owners != [] {
      OtherOwners(owners[..|owners| - 1], name, owner);
      assert owners == owners[..|owners| - 1] + [owners[|owners| - 1]];
    }
  }

  /** So a tag can be gone and still be listed as an owner. */
  lemma DeletedOwner()
    ensures var s := Schema(None, None, Some(map["tag:a" := ["tag:b"], "tag:b" := ["group:x"]]), None, None, None,
              None, None, None);
            var t := Target(TagOwners, "tag:b");
            var after := OrEmpty(Cascaded(s, t).tagOwners);
            Exists(s, t) && "tag:b" !in after && "tag:a" in after && "tag:b" in after["tag:a"]
  {
    var s := Schema(None, None, Some(map["tag:a" := ["tag:b"], "tag:b" := ["group:x"]]), None, None, None, None,
        None, None);
    OwnersKept(s, Target(TagOwners, "tag:b"), "tag:a", "tag:b");
    CascadeCloses(s, Target(TagOwners, "tag:b"));
    assert Target(TagOwners, "tag:b") in Removed(s, Target(TagOwners, "tag:b"));
  }

  lemma CleanKeepsMaps(s: Schema, ts: set<Target>)
    ensures Clean(s, ts).groups == s.groups && Clean(s, ts).tagOwners == s.tagOwners && Clean(s, ts).hosts == s.hosts
  {
    hide CleanList, CleanAuto;
  }

  // ----- What does not refer stays, in order

  function Filter<T>(xs: seq<T>, keep: T -> bool): seq<T> {
    if xs == [] then []
    else Filter(xs[..|xs| - 1], keep) + if keep(xs[|xs| - 1]) then [xs[|xs| - 1]] else []
  }

  /** `x` can be had from `y` by leaving elements out. */
  ghost predicate Subsequence<T>(x: seq<T>, y: seq<T>)
    decreases |y|
  {
    x == [] || (y != [] && ((x[|x| - 1] == y[|y| - 1] && Subsequence(x[..|x| - 1], y[..|y| - 1]))
        || Subsequence(x, y[..|y| - 1])))
  }

  lemma SubsequenceSnoc<T>(x: seq<T>, y: seq<T>, z: T)
    requires Subsequence(x, y)
    ensures Subsequence(x, y + [z]) && Subsequence(x + [z], y + [z])
  {
    assert (y + [z])[..|y|] == y && (x + [z])[..|x|] == x;
  }

  lemma {:induction false} KeptInOrder<T>(xs: seq<T>, f: T -> Option<T>, keep: T -> bool)
    requires forall x :: x in xs && keep(x) ==> f(x) == Some(x)
    ensures Subsequence(Filter(xs, keep), FlatMap(xs, f))
  {
    if xs != [] {
      var init, x := xs[..|xs| - 1], xs[|xs| - 1];
      KeptInOrder(init, f, keep);
      hide Subsequence;
      assert Filter(init, keep) + [] == Filter(init, keep) && FlatMap(init, f) + [] == FlatMap(init, f);
      if f(x).Some? {
        SubsequenceSnoc(Filter(init, keep), FlatMap(init, f), f(x).value);
      }
    }
  }

  predicate PlainRule(r: AclRule, ts: set<Target>) { !AnyRefers(r.src, ts) && !AnyRefers(r.dst, ts) }
  predicate PlainGrant(g: Grant, ts: set<Target>) { !AnyRefers(g.src, ts) && !AnyRefers(g.dst, ts)
      && !AnyRefers(OrNone(g.via), ts) }
  predicate PlainSsh(r: SshRule, ts: set<Target>) { !AnyRefers(r.src, ts) && !AnyRefers(r.dst, ts) }
  predicate PlainTest(t: AclTest, ts: set<Target>) { !Refers(t.src, ts) && !AnyRefers(OrNone(t.accept), ts)
      && !AnyRefers(OrNone(t.deny), ts) }
  predicate PlainSshTest(t: SshTest, ts: set<Target>) { !Refers(t.src, ts) && !AnyRefers(t.dst, ts) && t.dst != [] }

  /** Entries without a reference survive untouched and in order. */
  ghost predicate Preserves(s: Schema, c: Schema, ts: set<Target>) {
    && Subsequence(Filter(OrNone(s.acls), r => PlainRule(r, ts)), OrNone(c.acls))
    && Subsequence(Filter(OrNone(s.grants), g => PlainGrant(g, ts)), OrNone(c.grants))
    && Subsequence(Filter(OrNone(s.ssh), r => PlainSsh(r, ts)), OrNone(c.ssh))
    && Subsequence(Filter(OrNone(s.tests), t => PlainTest(t, ts)), OrNone(c.tests))
    && Subsequence(Filter(OrNone(s.sshTests), t => PlainSshTest(t, ts)), OrNone(c.sshTests))
    && (s.autoApprovers.Some? ==>
          c.autoApprovers.Some?
          && var before, after := OrEmpty(s.autoApprovers.value.routes), OrEmpty(c.autoApprovers.value.routes);
             forall route :: route in before && !AnyRefers(before[route], ts) ==>
               route in after && after[route] == before[route])
  }

  /** One round leaves an entry as it is exactly when it is plain: without a reference, and an SSH test not empty. */
  lemma PlainExactly(ts: set<Target>)
    ensures forall r :: CleanRule(r, ts) == Some(r) <==> PlainRule(r, ts)
    ensures forall g :: CleanGrant(g, ts) == Some(g) <==> PlainGrant(g, ts)
    ensures forall r :: CleanSsh(r, ts) == Some(r) <==> PlainSsh(r, ts)
    ensures forall t :: CleanTest(t, ts) == Some(t) <==> PlainTest(t, ts)
    ensures forall t :: CleanSshTest(t, ts) == Some(t) <==> PlainSshTest(t, ts)
    ensures forall xs :: CleanRoute(xs, ts) == Some(xs) <==> !AnyRefers(xs, ts)
  {
    hide AnyRefers, Without, Refers;
    forall xs
      ensures Without(xs, ts) == xs <==> !AnyRefers(xs, ts)
      ensures |Without(xs, ts)| == |xs| <==> !AnyRefers(xs, ts)
    {
      WithoutLength(xs, ts);
    }
  }

  /** An SSH test without a destination goes with the next deletion, whatever that deletes. */
  lemma EmptySshTestGoes()
    ensures var t, test := Target(Groups, "group:a"), SshTest("alice", [], map[], ["src", "dst"]);
            var s := Schema(Some(map["group:a" := []]), None, None, None, None, None, None, None, Some([test]));
            Exists(s, t) && !Refers("alice", Removed(s, t)) && Cascaded(s, t).sshTests == Some([])
  {
    var t, test := Target(Groups, "group:a"), SshTest("alice", [], map[], ["src", "dst"]);
    var s := Schema(Some(map["group:a" := []]), None, None, None, None, None, None, None, Some([test]));
    var f := (x: SshTest) => CleanSshTest(x, Removed(s, t));
    assert Without([], Removed(s, t)) == [];
    FlatMapNone(f);
    FlatMapSnoc([], test, f);
    assert [] + [test] == [test];
    assert Cascaded(s, t).sshTests == Some(FlatMap([test], f));
  }

  lemma CleanPreserves(s: Schema, ts: set<Target>)
    ensures Preserves(s, Clean(s, ts), ts)
  {
    PlainExactly(ts);
    hide CleanRule, CleanGrant, CleanSsh, CleanTest, CleanSshTest, FlatMap, Filter, Subsequence, PlainRule,
        PlainGrant, PlainSsh, PlainTest, PlainSshTest, AnyRefers, CleanRoute, Without;
    KeptInOrder(OrNone(s.acls), r => CleanRule(r, ts), r => PlainRule(r, ts));
    KeptInOrder(OrNone(s.grants), g => CleanGrant(g, ts), g => PlainGrant(g, ts));
    KeptInOrder(OrNone(s.ssh), r => CleanSsh(r, ts), r => PlainSsh(r, ts));
    KeptInOrder(OrNone(s.tests), t => CleanTest(t, ts), t => PlainTest(t, ts));
    KeptInOrder(OrNone(s.sshTests), t => CleanSshTest(t, ts), t => PlainSshTest(t, ts));
    NothingKept(s, ts);
  }

  lemma NothingKept(s: Schema, ts: set<Target>)
    ensures s.acls.None? ==> Subsequence(Filter(OrNone(s.acls), r => PlainRule(r, ts)), [])
    ensures s.grants.None? ==> Subsequence(Filter(OrNone(s.grants), g => PlainGrant(g, ts)), [])
    ensures s.ssh.None? ==> Subsequence(Filter(OrNone(s.ssh), r => PlainSsh(r, ts)), [])
    ensures s.tests.None? ==> Subsequence(Filter(OrNone(s.tests), t => PlainTest(t, ts)), [])
    ensures s.sshTests.None? ==> Subsequence(Filter(OrNone(s.sshTests), t => PlainSshTest(t, ts)), [])
  {
  }

  /** What a deletion keeps. */
  lemma CascadePreserves(s: Schema, t: Target)
    ensures Exists(s, t) ==> Preserves(s, Cascaded(s, t), Removed(s, t)) && Cascaded(s, t).hosts == s.hosts
    ensures !Exists(s, t) ==> Cascaded(s, t) == s
  {
    hide Preserves, Clean;
    CleanPreserves(Uncleaned(s, t), Removed(s, t));
    CleanKeepsMaps(Uncleaned(s, t), Removed(s, t));
    SameLists(s, Uncleaned(s, t), Clean(Uncleaned(s, t), Removed(s, t)), Removed(s, t));
  }

  lemma SameLists(s: Schema, u: Schema, c: Schema, ts: set<Target>)
    requires u == s.(groups := u.groups, tagOwners := u.tagOwners) && Preserves(u, c, ts)
    ensures Preserves(s, c, ts)
  {
    hide Subsequence, Filter, AnyRefers;
  }

  // ----- The program: one target at a time, recursing from a group into its tags

  class Deletion {
    var next: Schema
    var removed: set<Target>
    var affected: nat

    constructor (projected: Schema)
      ensures next == projected && removed == {} && affected == 0
    {
      next, removed, affected := projected, {}, 0;
    }

    method CleanReferences(t: Target)
      modifies this
      ensures next == Clean(old(next), {t}) && removed == old(removed)
      ensures affected == old(affected) + Changes(old(next), {t})
    {
      hide Clean, Changes;
      affected := affected + Changes(next, {t});
      next := Clean(next, {t});
    }

    /** Deleting a tag. */
    method RemoveTag(tag: string)
      modifies this
      ensures Target(TagOwners, tag) in old(removed) ==>
                next == old(next) && removed == old(removed) && affected == old(affected)
      ensures Target(TagOwners, tag) !in old(removed) ==>
                && next == Cascaded(old(next), Target(TagOwners, tag))
                && removed == old(removed) + {Target(TagOwners, tag)}
                && (affected > old(affected) <==> tag in OrEmpty(old(next).tagOwners)) && affected >= old(affected)
    {
      hide Clean, Changes;
      var current := Target(TagOwners, tag);
      if current in removed {
        return;
      }
      removed := removed + {current};
      if tag !in OrEmpty(next.tagOwners) {
        return;
      }
      next := next.(tagOwners := WithoutKey(next.tagOwners, tag));
      affected := affected + 1;
      CleanReferences(current);
    }

    /** Deleting a group: its tags in any order, each with its own references, then its own references. */
    method RemoveGroup(name: string)
      requires removed == {}
      modifies this
      ensures next == Cascaded(old(next), Target(Groups, name))
      ensures removed == (if name in OrEmpty(old(next).groups) then Removed(old(next), Target(Groups, name))
                else {Target(Groups, name)})
      ensures affected > old(affected) <==> name in OrEmpty(old(next).groups)
      ensures affected >= old(affected)
    {
      hide *;
      var current := Target(Groups, name);
      ghost var s := next;
      GroupMissing(s, name);
      removed := {current};
      if name !in OrEmpty(next.groups) {
        return;
      }
      next := next.(groups := WithoutKey(next.groups, name));
      affected := affected + 1;
      var owners := OrEmpty(next.tagOwners);
      var left := owners.Keys;
      ghost var cleaned: set<string> := {};
      GroupStart(s, name);
      while left != {}
        invariant left <= owners.Keys && owners == OrEmpty(s.tagOwners)
        invariant cleaned <= Emptied(owners, name) && cleaned == Emptied(owners, name) - left
        invariant next == Partly(s, name, left, cleaned)
        invariant removed == {current} + Tags(cleaned)
        invariant affected > old(affected)
        decreases left
      {
        var tag :| tag in left;
        if name !in owners[tag] || WithoutOwner(owners[tag], name) != [] {
          TagTrimmed(s, name, left, cleaned, tag);
        } else {
          TagEmptied(s, name, left, cleaned, tag);
        }
        if name in owners[tag] {
          var remaining := WithoutOwner(owners[tag], name);
          if remaining == [] {
            TagsUnfold(cleaned, tag, name);
            RemoveTag(tag);
            cleaned := cleaned + {tag};
          } else {
            next := next.(tagOwners := Some(next.tagOwners.value[tag := remaining]));
            affected := affected + 1;
          }
        }
        left := left - {tag};
      }
      GroupEnd(s, name, cleaned);
      CleanReferences(current);
    }

    method RemoveTarget(t: Target)
      requires removed == {}
      modifies this
      ensures next == Cascaded(old(next), t)
      ensures affected > old(affected) <==> Exists(old(next), t)
    {
      hide Cascaded, Removed, Changes;
      match t.section {
        case Groups => RemoveGroup(t.name);
        case TagOwners => RemoveTag(t.name);
      }
    }
  }

  ghost function Tags(names: set<string>): set<Target> {
    set tag <- names :: Target(TagOwners, tag)
  }

  /** The owners half way: tags in `left` untouched, the others rid of the group, the cleaned ones gone. */
  ghost function PartlyOwned(owners: Entries, name: string, left: set<string>, cleaned: set<string>): Entries {
    map tag <- owners | tag !in cleaned :: if tag in left then owners[tag] else WithoutOwner(owners[tag], name)
  }

  ghost function Partly(s: Schema, name: string, left: set<string>, cleaned: set<string>): Schema {
    var u := s.(groups := WithoutKey(s.groups, name),
                tagOwners := if s.tagOwners.None? then None
                    else Some(PartlyOwned(s.tagOwners.value, name, left, cleaned)));
    if cleaned == {} then u else Clean(u, Tags(cleaned))
  }

  lemma MapsApart(u: Schema, ts: set<Target>, owners: Option<Entries>)
    ensures Clean(u.(tagOwners := owners), ts) == Clean(u, ts).(tagOwners := owners)
  {
    hide CleanList, CleanAuto;
  }

  lemma GroupMissing(s: Schema, name: string)
    ensures Exists(s, Target(Groups, name)) <==> name in OrEmpty(s.groups)
    ensures name !in OrEmpty(s.groups) ==> Cascaded(s, Target(Groups, name)) == s
  {
    hide Clean;
  }

  lemma GroupStart(s: Schema, name: string)
    ensures Partly(s, name, OrEmpty(s.tagOwners).Keys, {}) == s.(groups := WithoutKey(s.groups, name))
    ensures {} == Emptied(OrEmpty(s.tagOwners), name) - OrEmpty(s.tagOwners).Keys
    ensures Tags({}) == {}
  {
    hide Clean, WithoutOwner;
    if s.tagOwners.Some? {
      assert PartlyOwned(s.tagOwners.value, name, s.tagOwners.value.Keys, {}) == s.tagOwners.value;
    }
  }

  lemma TagsUnfold(cleaned: set<string>, tag: string, name: string)
    requires tag !in cleaned
    ensures Tags(cleaned + {tag}) == Tags(cleaned) + {Target(TagOwners, tag)}
    ensures Target(TagOwners, tag) !in {Target(Groups, name)} + Tags(cleaned)
  {
  }

  /** A tag whose owners do not become empty. */
  lemma TagTrimmed(s: Schema, name: string, left: set<string>, cleaned: set<string>, tag: string)
    requires tag in left && left <= OrEmpty(s.tagOwners).Keys && cleaned == Emptied(OrEmpty(s.tagOwners), name) - left
    requires name !in OrEmpty(s.tagOwners)[tag] || WithoutOwner(OrEmpty(s.tagOwners)[tag], name) != []
    ensures cleaned == Emptied(OrEmpty(s.tagOwners), name) - (left - {tag})
    ensures var p := Partly(s, name, left, cleaned);
            && p.tagOwners.Some?
            && Partly(s, name, left - {tag}, cleaned) ==
                p.(tagOwners := Some(p.tagOwners.value[tag := WithoutOwner(OrEmpty(s.tagOwners)[tag], name)]))
            && (name !in OrEmpty(s.tagOwners)[tag] ==> Partly(s, name, left - {tag}, cleaned) == p)
  {
    hide Clean, WithoutOwner;
    var owners := s.tagOwners.value;
    NotAnOwner(owners[tag], name);
    var before, after := PartlyOwned(owners, name, left, cleaned), PartlyOwned(owners, name, left - {tag}, cleaned);
    assert after == before[tag := WithoutOwner(owners[tag], name)];
    var u := s.(groups := WithoutKey(s.groups, name));
    MapsApart(u, Tags(cleaned), Some(before));
    MapsApart(u, Tags(cleaned), Some(after));
    if name !in owners[tag] {
      assert before[tag] == owners[tag];
      assert after == before;
    }
  }

  /** A tag that loses its last owner goes with its references. */
  lemma TagEmptied(s: Schema, name: string, left: set<string>, cleaned: set<string>, tag: string)
    requires tag in left && left <= OrEmpty(s.tagOwners).Keys && cleaned == Emptied(OrEmpty(s.tagOwners), name) - left
    requires name in OrEmpty(s.tagOwners)[tag] && WithoutOwner(OrEmpty(s.tagOwners)[tag], name) == []
    ensures cleaned + {tag} == Emptied(OrEmpty(s.tagOwners), name) - (left - {tag})
    ensures Cascaded(Partly(s, name, left, cleaned), Target(TagOwners, tag)) ==
              Partly(s, name, left - {tag}, cleaned + {tag})
  {
    hide Clean, WithoutOwner;
    var owners := s.tagOwners.value;
    var before, after := PartlyOwned(owners, name, left, cleaned), PartlyOwned(owners, name, left - {tag}, cleaned +
        {tag});
    assert after == before - {tag};
    var u := s.(groups := WithoutKey(s.groups, name));
    var t := Target(TagOwners, tag);
    TagsUnfold(cleaned, tag, name);
    MapsApart(u, Tags(cleaned), Some(before));
    MapsApart(u, Tags(cleaned), Some(after));
    assert Exists(Partly(s, name, left, cleaned), t);
    assert Uncleaned(Partly(s, name, left, cleaned), t) == Partly(s, name, left, cleaned).(tagOwners := Some(after));
    CleanTwice(u.(tagOwners := Some(after)), Tags(cleaned), {t});
    assert {} + {t} == {t};
    assert cleaned == {} ==> Tags(cleaned) == {};
  }

  lemma GroupEnd(s: Schema, name: string, cleaned: set<string>)
    requires name in OrEmpty(s.groups) && cleaned == Emptied(OrEmpty(s.tagOwners), name)
    ensures Clean(Partly(s, name, {}, cleaned), {Target(Groups, name)}) == Cascaded(s, Target(Groups, name))
    ensures {Target(Groups, name)} + Tags(cleaned) == Removed(s, Target(Groups, name))
  {
    hide Clean, WithoutOwner;
    var t := Target(Groups, name);
    if s.tagOwners.Some? {
      assert PartlyOwned(s.tagOwners.value, name, {}, cleaned) == OwnersAfter(s.tagOwners.value, name);
    }
    CleanTwice(Uncleaned(s, t), Tags(cleaned), {t});
    assert Tags(cleaned) + {t} == {t} + Tags(cleaned);
    if cleaned == {} {
      assert Tags(cleaned) == {};
      assert {t} + {} == {t};
    }
  }
}
