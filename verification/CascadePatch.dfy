/** The patch a deletion stages, and what replaying it gives (ui/src/lib/policyDraft.ts). */
module CascadePatch {
  import opened Common
  import opened Json
  import opened Cascade
  import opened SchemaPatch
  import ArrayPatch
  import Lcs
  import Pointer

  // ----- The document as JSON

  function Texts(values: seq<string>): Json {
    Arr(seq(|values|, i requires 0 <= i < |values| => Text(values[i])))
  }

  function EntriesJson(m: Entries): Fields {
    map k <- m :: Texts(m[k])
  }

  function HostsJson(m: map<string, string>): Fields {
    map k <- m :: Text(m[k])
  }

  function With(m: Fields, key: string, value: Option<Json>): Fields {
    match value case None => m case Some(v) => m[key := v]
  }

  function TextsIf(values: Option<seq<string>>): Option<Json> {
    match values case None => None case Some(v) => Some(Texts(v))
  }

  function RuleJson(r: AclRule): Json {
    Entry(r.keys, r.rest["src" := Texts(r.src)]["dst" := Texts(r.dst)])
  }

  function GrantJson(g: Grant): Json {
    Entry(g.keys, With(g.rest["src" := Texts(g.src)]["dst" := Texts(g.dst)], "via", TextsIf(g.via)))
  }

  function SshJson(r: SshRule): Json {
    Entry(r.keys, r.rest["src" := Texts(r.src)]["dst" := Texts(r.dst)])
  }

  function TestJson(t: AclTest): Json {
    Entry(t.keys, With(With(t.rest["src" := Text(t.src)], "accept", TextsIf(t.accept)), "deny", TextsIf(t.deny)))
  }

  function SshTestJson(t: SshTest): Json {
    Entry(t.keys, t.rest["src" := Text(t.src)]["dst" := Texts(t.dst)])
  }

  function RoutesIf(routes: Option<Entries>): Option<Json> {
    match routes case None => None case Some(m) => Some(Obj(EntriesJson(m)))
  }

  function AutoJson(a: AutoApprovers): Fields {
    With(With(a.rest, "routes", RoutesIf(a.routes)), "exitNode", TextsIf(a.exitNode))
  }

  function Each<T>(xs: seq<T>, json: T -> Json): seq<Json> {
    seq(|xs|, i requires 0 <= i < |xs| => json(xs[i]))
  }

  function ListIf<T>(xs: Option<seq<T>>, json: T -> Json): Option<seq<Json>> {
    match xs case None => None case Some(v) => Some(Each(v, json))
  }

  function MapIf(m: Option<Entries>): Option<Fields> {
    match m case None => None case Some(v) => Some(EntriesJson(v))
  }

  /** The maps of a document, by section. */
  function MapOf(s: Schema, section: string): Option<Fields> {
    if section == "groups" then MapIf(s.groups) else MapIf(s.tagOwners)
  }

  /** The arrays of a document, by section. */
  function ListOf(s: Schema, section: string): Option<seq<Json>> {
    if section == "acls" then ListIf(s.acls, RuleJson)
    else if section == "grants" then ListIf(s.grants, GrantJson)
    else if section == "ssh" then ListIf(s.ssh, SshJson)
    else if section == "tests" then ListIf(s.tests, TestJson)
    else ListIf(s.sshTests, SshTestJson)
  }

  function MapSections(): set<string> { {"groups", "tagOwners"} }

  function ListSections(): set<string> { {"acls", "grants", "ssh", "tests", "sshTests"} }

  function SectionJson(s: Schema, section: string): Option<Json> {
    if section in MapSections() then (if MapOf(s, section).Some? then Some(Obj(MapOf(s, section).value)) else None)
    else if section in ListSections() then (if ListOf(s, section).Some? then Some(Arr(ListOf(s, section).value))
        else None)
    else if section == "hosts" then (if s.hosts.Some? then Some(Obj(HostsJson(s.hosts.value))) else None)
    else if section == "autoApprovers" then (if s.autoApprovers.Some? then Some(Obj(AutoJson(s.autoApprovers.value)))
        else None)
    else None
  }

  function DocOf(s: Schema): Fields {
    map section <- EditableSections() | SectionJson(s, section).Some? :: SectionJson(s, section).value
  }

  // ----- cascadeOperations

  function OrNoFields(m: Option<Fields>): Fields {
    match m case None => map[] case Some(v) => v
  }

  function OrNoItems(xs: Option<seq<Json>>): seq<Json> {
    match xs case None => [] case Some(v) => v
  }

  /** What the deletion never does: no section, and no part of autoApprovers, comes or goes. */
  ghost predicate SameShape(before: Schema, after: Schema) {
    && (before.groups.Some? <==> after.groups.Some?) && (before.tagOwners.Some? <==> after.tagOwners.Some?)
    && before.hosts == after.hosts
    && (before.acls.Some? <==> after.acls.Some?) && (before.grants.Some? <==> after.grants.Some?)
        && (before.ssh.Some? <==> after.ssh.Some?)
    && (before.tests.Some? <==> after.tests.Some?) && (before.sshTests.Some? <==> after.sshTests.Some?)
    && (before.autoApprovers.Some? <==> after.autoApprovers.Some?)
    && (before.autoApprovers.Some? ==> SameParts(before.autoApprovers.value, after.autoApprovers.value))
  }

  ghost predicate SameParts(a: AutoApprovers, b: AutoApprovers) {
    a.rest == b.rest && (a.routes.Some? <==> b.routes.Some?) && (a.exitNode.Some? <==> b.exitNode.Some?)
  }

  lemma CascadedShape(s: Schema, t: Target)
    ensures SameShape(s, Cascaded(s, t))
  {
    hide FlatMap, CleanRoutes, Without;
  }

  /** What one map section is replayed to. */
  ghost function MapAfter(before: Schema, after: Schema, section: string): Json
    requires MapOf(before, section).Some? && MapOf(after, section).Some?
  {
    Obj(Merged(MapOf(before, section).value, MapOf(after, section).value))
  }

  ghost function ListAfter(before: Schema, after: Schema, section: string): Json
    requires ListOf(before, section).Some? && ListOf(after, section).Some?
  {
    Arr(Replayed(ListOf(before, section).value, ListOf(after, section).value))
  }

  ghost function RoutesAfter(a: AutoApprovers, b: AutoApprovers): Option<Json>
    requires SameParts(a, b)
  {
    if a.routes.None? then None else Some(Obj(Merged(EntriesJson(a.routes.value), EntriesJson(b.routes.value))))
  }

  ghost function AutoAfter(a: AutoApprovers, b: AutoApprovers): Fields
    requires SameParts(a, b)
  {
    With(With(a.rest, "routes", RoutesAfter(a, b)), "exitNode", TextsIf(b.exitNode))
  }

  ghost function SectionAfter(before: Schema, after: Schema, section: string): Option<Json>
    requires SameShape(before, after)
  {
    if SectionJson(before, section).None? then None
    else if section in MapSections() then Some(MapAfter(before, after, section))
    else if section in ListSections() then Some(ListAfter(before, after, section))
    else if section == "autoApprovers" then Some(Obj(AutoAfter(before.autoApprovers.value, after.autoApprovers.value)))
    else SectionJson(before, section)
  }

  /** The document once the sections of `done` are replayed. */
  ghost function DocMidway(before: Schema, after: Schema, done: set<string>): Fields
    requires SameShape(before, after)
  {
    map section <- EditableSections() | SectionJson(before, section).Some? ::
      if section in done then SectionAfter(before, after, section).value else SectionJson(before, section).value
  }

  ghost function DocAfter(before: Schema, after: Schema): Fields
    requires SameShape(before, after)
  {
    map section <- EditableSections() | SectionJson(before, section).Some? :: SectionAfter(before, after, section).value
  }

  /** One more section replayed. */
  lemma SectionDone(before: Schema, after: Schema, done: set<string>, section: string, root: Fields)
    requires SameShape(before, after) && section in EditableSections()
    requires var doc := DocMidway(before, after, done);
             root == if SectionJson(before, section).Some?
                 then doc[section := SectionAfter(before, after, section).value] else doc
    ensures root == DocMidway(before, after, done + {section})
  {
    hide SectionJson, SectionAfter, EditableSections;
  }

  lemma InDoc(before: Schema, after: Schema, done: set<string>, section: string)
    requires SameShape(before, after) && section in EditableSections() && section !in done
    ensures var doc := DocMidway(before, after, done);
            (section in doc <==> SectionJson(before, section).Some?)
            && (section in doc ==> doc[section] == SectionJson(before, section).value)
  {
    hide SectionJson, SectionAfter, EditableSections;
  }

  method MapSection(before: Schema, after: Schema, section: string, ghost done: set<string>) returns (ops: seq<PatchOp>)
    requires SameShape(before, after) && section in MapSections() && section !in done
    ensures Replay(DocMidway(before, after, done), ops) == DocMidway(before, after, done + {section})
  {
    hide Replay, Merged, EntriesJson, Pointer.PointerTo, KeyOps, EditKeys, DocMidway;
    ghost var edits: seq<KeyEdit>;
    SectionPath(section);
    ops, edits := MapOperations("/" + section, OrNoFields(MapOf(before, section)), OrNoFields(MapOf(after, section)),
        [section]);
    InDoc(before, after, done, section);
    if MapOf(before, section).Some? {
      KeysReplay(DocMidway(before, after, done), section, MapOf(before, section).value, edits);
    } else {
      NoEdits(DocMidway(before, after, done), [section]);
    }
    SectionDone(before, after, done, section, Replay(DocMidway(before, after, done), ops));
  }

  lemma SectionPath(section: string)
    requires section in EditableSections()
    ensures Pointer.PointerTo([section]) == "/" + section
  {
    hide *;
    SectionPlain(section);
    PathTo([], section);
    RootPath();
    Regrouped(section);
  }

  lemma RootPath()
    ensures Pointer.PointerTo([]) == ""
  {
  }

  lemma Regrouped(section: string)
    ensures [] + [section] == [section] && "" + "/" + section == "/" + section
  {
  }

  lemma SectionPlain(section: string)
    requires section in EditableSections()
    ensures '~' !in section && '/' !in section
  {
  }

  lemma PathTo(base: seq<string>, key: string)
    requires '~' !in key && '/' !in key
    ensures Pointer.PointerTo(base + [key]) == Pointer.PointerTo(base) + "/" + key
  {
    hide Pointer.PointerTo, Pointer.EscapeToken;
    Longer(base, key);
    PlainToken(key);
  }

  /** Section names hold nothing to escape. */
  lemma PlainToken(s: string)
    requires '~' !in s && '/' !in s
    ensures Pointer.EscapeToken(s) == s
  {
    NothingToReplace(s, '~', "~0");
    NothingToReplace(s, '/', "~1");
  }

  lemma {:induction false} NothingToReplace(s: string, c: char, sub: string)
    requires c !in s
    ensures Pointer.ReplaceChar(s, c, sub) == s
  {
    if s != "" {
      NothingToReplace(s[1..], c, sub);
      assert s == [s[0]] + s[1..];
    }
  }

  lemma NoEdits(root: Fields, base: seq<string>)
    ensures Replay(root, KeyOps(base, [])) == root
  {
  }

  method ListSection(before: Schema, after: Schema, section: string, ghost done: set<string>)
      returns (ops: seq<PatchOp>)
    requires SameShape(before, after) && section in ListSections() && section !in done
    ensures Replay(DocMidway(before, after, done), ops) == DocMidway(before, after, done + {section})
  {
    hide Replay, ListOf, ItemOps, DocMidway, ArrayPatch.Operations, ArrayPatch.ApplyAll, ArrayPatch.Rising, Lcs.Walk;
    ListShape(before, after, section);
    ops := SchemaPatch.ArrayOperations(section, OrNoItems(ListOf(before, section)), OrNoItems(ListOf(after, section)));
    InDoc(before, after, done, section);
    if ListOf(before, section).Some? {
      var b, a := ListOf(before, section).value, ListOf(after, section).value;
      ItemsReplay(DocMidway(before, after, done), section, b, ArrayPatch.Operations(Lcs.Walk(b, a, 0, 0), b, a));
    } else {
      NoItems(DocMidway(before, after, done), section);
    }
    SectionDone(before, after, done, section, Replay(DocMidway(before, after, done), ops));
  }

  lemma ListShape(before: Schema, after: Schema, section: string)
    requires SameShape(before, after) && section in ListSections()
    ensures ListOf(before, section).Some? <==> ListOf(after, section).Some?
  {
  }

  lemma WalkNone()
    ensures Lcs.Walk<Json>([], [], 0, 0) == []
  {
  }

  lemma OperationsNone()
    ensures ArrayPatch.Rising([], 0, 0, 0, 0)
    ensures ArrayPatch.Operations<Json>([], [], []) == []
  {
    hide ArrayPatch.ReplaceRun, ArrayPatch.RemoveRun, ArrayPatch.AppendRun;
    ArrayPatch.LastOps<Json>(0, 0, 0, []);
    ArrayPatch.LastTexts<Json>(0, 0, [], []);
    EmptyRuns();
  }

  lemma EmptyRuns()
    ensures ArrayPatch.ReplaceRun<Json>(0, []) == [] && ArrayPatch.RemoveRun<Json>(0, 0) == []
              && ArrayPatch.AppendRun<Json>([]) == []
  {
  }

  lemma NoItems(root: Fields, section: string)
    ensures ArrayPatch.Rising(Lcs.Walk<Json>([], [], 0, 0), 0, 0, 0, 0)
    ensures Replay(root, ItemOps(section, ArrayPatch.Operations(Lcs.Walk<Json>([], [], 0, 0), [], []))) == root
  {
    hide *;
    WalkNone();
    OperationsNone();
    ItemOpsNone(section);
    ReplayNone(root);
  }

  /** autoApproverOperations, for a document that keeps its shape. */
  method AutoOperations(a: AutoApprovers, b: AutoApprovers, ghost doc: Fields) returns (ops: seq<PatchOp>)
    requires SameParts(a, b) && "autoApprovers" in doc && doc["autoApprovers"] == Obj(AutoJson(a))
    ensures Replay(doc, ops) == doc["autoApprovers" := Obj(AutoAfter(a, b))]
  {
    hide *;
    PartsUnfold(a, b);
    ghost var edits: seq<KeyEdit>;
    RoutesPath();
    ops, edits := MapOperations("/autoApprovers/routes", OrNoFields(MapIf(a.routes)), OrNoFields(MapIf(b.routes)),
        ["autoApprovers", "routes"]);
    RoutesReplay(doc, a, b, edits);
    ghost var mid := doc["autoApprovers" := Obj(With(With(a.rest, "routes", RoutesAfter(a, b)), "exitNode",
        TextsIf(a.exitNode)))];
    if a.exitNode != b.exitNode {
      var op := Replace("/autoApprovers/exitNode", Texts(b.exitNode.value));
      ExitReplay(mid, a, b, op);
      ReplaySnoc(doc, ops, op);
      ops := ops + [op];
    }
    assert mid["autoApprovers" := Obj(AutoAfter(a, b))] == doc["autoApprovers" := Obj(AutoAfter(a, b))];
  }

  lemma PartsUnfold(a: AutoApprovers, b: AutoApprovers)
    requires SameParts(a, b)
    ensures a.rest == b.rest && (a.routes.Some? <==> b.routes.Some?) && (a.exitNode.Some? <==> b.exitNode.Some?)
    ensures AutoAfter(a, b) == With(With(a.rest, "routes", RoutesAfter(a, b)), "exitNode", TextsIf(b.exitNode))
  {
    hide With, RoutesAfter, TextsIf;
  }

  method AutoSection(before: Schema, after: Schema, ghost done: set<string>) returns (ops: seq<PatchOp>)
    requires SameShape(before, after) && "autoApprovers" !in done
    ensures Replay(DocMidway(before, after, done), ops) == DocMidway(before, after, done + {"autoApprovers"})
  {
    hide *;
    ghost var doc := DocMidway(before, after, done);
    AutoEditable();
    InDoc(before, after, done, "autoApprovers");
    AutoUnfold(before, after);
    if before.autoApprovers.None? {
      ReplayNone(doc);
      SectionDone(before, after, done, "autoApprovers", doc);
      return [];
    }
    ops := AutoOperations(before.autoApprovers.value, after.autoApprovers.value, doc);
    SectionDone(before, after, done, "autoApprovers", Replay(doc, ops));
  }

  lemma AutoUnfold(before: Schema, after: Schema)
    requires SameShape(before, after)
    ensures before.autoApprovers.None? ==> SectionJson(before, "autoApprovers").None?
    ensures before.autoApprovers.Some? ==>
              var a := before.autoApprovers.value;
              && after.autoApprovers.Some? && SameParts(a, after.autoApprovers.value)
              && SectionJson(before, "autoApprovers") == Some(Obj(AutoJson(a)))
              && SectionAfter(before, after, "autoApprovers") == Some(Obj(AutoAfter(a, after.autoApprovers.value)))
  {
    hide AutoJson, AutoAfter;
  }

  lemma ReplayNone(root: Fields)
    ensures Replay(root, []) == root
  {
  }

  lemma InnerPath(key: string)
    requires '~' !in key && '/' !in key
    ensures Pointer.PointerTo(["autoApprovers", key]) == "/autoApprovers" + ("/" + key)
  {
    hide *;
    AutoEditable();
    SectionPath("autoApprovers");
    PathTo(["autoApprovers"], key);
    assert ["autoApprovers"] + [key] == ["autoApprovers", key];
    assert "/" + "autoApprovers" == "/autoApprovers";
    assert "/autoApprovers" + "/" + key == "/autoApprovers" + ("/" + key);
  }

  lemma RoutesPath()
    ensures Pointer.PointerTo(["autoApprovers", "routes"]) == "/autoApprovers/routes"
    ensures Pointer.PointerTo(["autoApprovers", "exitNode"]) == "/autoApprovers/exitNode"
  {
    hide *;
    InnerPath("routes");
    InnerPath("exitNode");
    assert "/autoApprovers" + ("/" + "routes") == "/autoApprovers/routes";
    assert "/autoApprovers" + ("/" + "exitNode") == "/autoApprovers/exitNode";
  }

  lemma AutoEditable()
    ensures "autoApprovers" in EditableSections()
  {
  }

  lemma RoutesReplay(doc: Fields, a: AutoApprovers, b: AutoApprovers, edits: seq<KeyEdit>)
    requires SameParts(a, b) && "autoApprovers" in doc && doc["autoApprovers"] == Obj(AutoJson(a))
    requires EditKeys(OrNoFields(MapIf(a.routes)), edits) == Merged(OrNoFields(MapIf(a.routes)),
               OrNoFields(MapIf(b.routes)))
    requires OrNoFields(MapIf(a.routes)) == OrNoFields(MapIf(b.routes)) ==> edits == []
    ensures Replay(doc, KeyOps(["autoApprovers", "routes"], edits)) ==
            doc["autoApprovers" := Obj(With(With(a.rest, "routes", RoutesAfter(a, b)), "exitNode",
                TextsIf(a.exitNode)))]
  {
    hide Replay, Merged, EntriesJson, KeyOps, EditKeys, Texts;
    if a.routes.Some? {
      var inner := AutoJson(a);
      SubKeysReplay(doc, "autoApprovers", inner, "routes", EntriesJson(a.routes.value), edits);
      var r := Obj(EditKeys(EntriesJson(a.routes.value), edits));
      assert inner["routes" := r] == With(With(a.rest, "routes", RoutesAfter(a, b)), "exitNode", TextsIf(a.exitNode));
    } else {
      NoEdits(doc, ["autoApprovers", "routes"]);
      assert doc["autoApprovers" := Obj(AutoJson(a))] == doc;
    }
  }

  lemma ExitReplay(mid: Fields, a: AutoApprovers, b: AutoApprovers, op: PatchOp)
    requires SameParts(a, b) && a.exitNode.Some? && op == Replace("/autoApprovers/exitNode", Texts(b.exitNode.value))
    requires "autoApprovers" in mid && mid["autoApprovers"] ==
               Obj(With(With(a.rest, "routes", RoutesAfter(a, b)), "exitNode", TextsIf(a.exitNode)))
    ensures ApplyOperation(mid, op) == mid["autoApprovers" := Obj(AutoAfter(a, b))]
  {
    hide ApplyOperation, Merged, EntriesJson, Texts, Pointer.PointerTo;
    RoutesPath();
    OnSection(mid, "autoApprovers", "exitNode", op);
    var inner := With(With(a.rest, "routes", RoutesAfter(a, b)), "exitNode", TextsIf(a.exitNode));
    assert inner["exitNode" := Texts(b.exitNode.value)] == AutoAfter(a, b);
  }

  /** The operations of a deletion, section after section. */
  method CascadeOperations(before: Schema, after: Schema) returns (ops: seq<PatchOp>)
    requires SameShape(before, after)
    ensures Replay(DocOf(before), ops) == DocAfter(before, after)
  {
    hide Replay, DocMidway, DocOf, DocAfter, SameShape;
    ghost var doc := DocOf(before);
    Begins(before, after);
    Ends(before, after);
    var groups := MapSection(before, after, "groups", {});
    var tagOwners := MapSection(before, after, "tagOwners", {"groups"});
    ReplayConcat(doc, groups, tagOwners);
    var acls := ListSection(before, after, "acls", {"groups"} + {"tagOwners"});
    ReplayConcat(doc, groups + tagOwners, acls);
    var grants := ListSection(before, after, "grants", {"groups"} + {"tagOwners"} + {"acls"});
    ReplayConcat(doc, groups + tagOwners + acls, grants);
    var ssh := ListSection(before, after, "ssh", {"groups"} + {"tagOwners"} + {"acls"} + {"grants"});
    ReplayConcat(doc, groups + tagOwners + acls + grants, ssh);
    var auto := AutoSection(before, after, {"groups"} + {"tagOwners"} + {"acls"} + {"grants"} + {"ssh"});
    ReplayConcat(doc, groups + tagOwners + acls + grants + ssh, auto);
    var tests := ListSection(before, after, "tests", {"groups"} + {"tagOwners"} + {"acls"} + {"grants"} + {"ssh"} +
        {"autoApprovers"});
    ReplayConcat(doc, groups + tagOwners + acls + grants + ssh + auto, tests);
    var sshTests := ListSection(before, after, "sshTests", {"groups"} + {"tagOwners"} + {"acls"} + {"grants"} +
        {"ssh"} + {"autoApprovers"} + {"tests"});
    ReplayConcat(doc, groups + tagOwners + acls + grants + ssh + auto + tests, sshTests);
    assert {} + {"groups"} == {"groups"};
    ops := groups + tagOwners + acls + grants + ssh + auto + tests + sshTests;
  }

  lemma Begins(before: Schema, after: Schema)
    requires SameShape(before, after)
    ensures DocMidway(before, after, {}) == DocOf(before)
  {
    hide SectionJson, SectionAfter, EditableSections, SameShape;
  }

  /** The eight sections that have operations; hosts have none. */
  function EightSections(): set<string> {
    {"groups"} + {"tagOwners"} + {"acls"} + {"grants"} + {"ssh"} + {"autoApprovers"} + {"tests"} + {"sshTests"}
  }

  lemma OnlyHosts(section: string)
    requires section in EditableSections()
    ensures section in EightSections() || section == "hosts"
  {
  }

  lemma HostsStay(before: Schema, after: Schema)
    requires SameShape(before, after)
    ensures SectionAfter(before, after, "hosts") == SectionJson(before, "hosts")
  {
    hide MapOf, ListOf, MapAfter, ListAfter, AutoAfter, AutoJson, HostsJson, SameShape;
  }

  lemma Ends(before: Schema, after: Schema)
    requires SameShape(before, after)
    ensures DocMidway(before, after, EightSections()) == DocAfter(before, after)
  {
    hide SectionJson, SectionAfter, EditableSections, EightSections, SameShape;
    HostsStay(before, after);
    forall section | section in EditableSections() ensures section in EightSections() || section == "hosts" {
      OnlyHosts(section);
    }
  }

  // ----- When the replay is exact

  /** The empty key cannot be addressed by an operation. */
  ghost predicate EmptyKeyStays(before: Fields, after: Fields) {
    ("" in before <==> "" in after) && ("" in before && "" in after ==> before[""] == after[""])
  }

  ghost predicate SectionExact(before: Schema, after: Schema, section: string)
    requires SameShape(before, after)
  {
    if SectionJson(before, section).None? then true
    else if section in MapSections() then EmptyKeyStays(MapOf(before, section).value, MapOf(after, section).value)
    else if section in ListSections() then InOrder(ListOf(before, section).value, ListOf(after, section).value)
    else if section == "autoApprovers" then
      before.autoApprovers.value.routes.Some? ==>
        EmptyKeyStays(EntriesJson(before.autoApprovers.value.routes.value),
            EntriesJson(after.autoApprovers.value.routes.value))
    else true
  }

  lemma SectionReplaysExactly(before: Schema, after: Schema, section: string)
    requires SameShape(before, after) && section in EditableSections()
    ensures SectionJson(before, section).Some? <==> SectionJson(after, section).Some?
    ensures SectionJson(before, section).Some? ==>
              (SectionAfter(before, after, section) == SectionJson(after, section) <==>
              SectionExact(before, after, section))
  {
    hide Merged, Replayed, InOrder, Each, EntriesJson, Texts, EmptyKeyStays;
    if SectionJson(before, section).Some? {
      if section in MapSections() {
        MergedMeans(MapOf(before, section).value, MapOf(after, section).value);
      } else if section in ListSections() {
        ReplayedMeans(ListOf(before, section).value, ListOf(after, section).value);
      } else if section == "autoApprovers" {
        AutoExact(before.autoApprovers.value, after.autoApprovers.value);
      }
    }
  }

  lemma MergedMeans(before: Fields, after: Fields)
    ensures Merged(before, after) == after <==> EmptyKeyStays(before, after)
  {
    hide Merged;
    MergedExact(before, after);
  }

  lemma AutoExact(a: AutoApprovers, b: AutoApprovers)
    requires SameParts(a, b)
    ensures AutoAfter(a, b) == AutoJson(b) <==>
              (a.routes.Some? ==> EmptyKeyStays(EntriesJson(a.routes.value), EntriesJson(b.routes.value)))
  {
    hide Merged, EntriesJson, Texts, EmptyKeyStays;
    if a.routes.Some? {
      MergedMeans(EntriesJson(a.routes.value), EntriesJson(b.routes.value));
      if AutoAfter(a, b) == AutoJson(b) {
        assert AutoAfter(a, b)["routes"] == AutoJson(b)["routes"];
      }
    }
  }

  /** The whole document is replayed exactly when every section is: maps but for the empty key, arrays when they fit. */
  lemma DocExact(before: Schema, after: Schema)
    requires SameShape(before, after)
    ensures DocAfter(before, after) == DocOf(after) <==> forall section :: section in EditableSections() ==>
              SectionExact(before, after, section)
  {
    hide SectionJson, SectionAfter, SectionExact, SameShape, EditableSections;
    forall section | section in EditableSections()
      ensures SectionJson(before, section).Some? <==> SectionJson(after, section).Some?
      ensures SectionJson(before, section).Some? ==>
                (SectionAfter(before, after, section) == SectionJson(after, section) <==>
                SectionExact(before, after, section))
      ensures SectionAfter(before, after, section).Some? <==> SectionJson(before, section).Some?
      ensures SectionJson(before, section).None? ==> SectionExact(before, after, section)
    {
      SectionReplaysExactly(before, after, section);
      SectionAfterSome(before, after, section);
    }
    if DocAfter(before, after) == DocOf(after) {
      forall section | section in EditableSections() ensures SectionExact(before, after, section) {
        if SectionJson(before, section).Some? {
          assert DocAfter(before, after)[section] == DocOf(after)[section];
        }
      }
    }
  }

  lemma SectionAfterSome(before: Schema, after: Schema, section: string)
    requires SameShape(before, after)
    ensures SectionAfter(before, after, section).Some? <==> SectionJson(before, section).Some?
    ensures SectionJson(before, section).None? ==> SectionExact(before, after, section)
  {
    hide MapAfter, ListAfter, AutoAfter, MapOf, ListOf, AutoJson, HostsJson, EmptyKeyStays, InOrder;
  }

  /** Maps and autoApprovers always come out right when no key is empty; arrays always hold the right entries. */
  lemma DocPermuted(before: Schema, after: Schema, section: string)
    requires SameShape(before, after) && section in ListSections() && ListOf(before, section).Some?
    ensures ListOf(after, section).Some? && section in DocAfter(before, after)
    ensures exists xs :: DocAfter(before, after)[section] == Arr(xs)
              && multiset(xs) == multiset(ListOf(after, section).value)
  {
    hide ListOf, Replayed;
    ListShape(before, after, section);
    var xs := Replayed(ListOf(before, section).value, ListOf(after, section).value);
    ReplayedMeans(ListOf(before, section).value, ListOf(after, section).value);
    assert DocAfter(before, after)[section] == Arr(xs);
  }

  // ----- cascadePolicyDeletion

  /**
   The operations to stage after `pending`. What the draft then shows is the cleaned document,
   section by section as above.
   */
  method CascadePolicyDeletion(schema: Fields, pending: seq<PatchOp>, target: Target, projected: Schema)
      returns (ops: seq<PatchOp>, affected: nat)
    requires DocOf(projected) == Replay(schema, pending)
    ensures SameShape(projected, Cascaded(projected, target))
    ensures Replay(schema, pending + ops) == DocAfter(projected, Cascaded(projected, target))
    ensures affected > 0 <==> Exists(projected, target)
  {
    hide Replay, DocOf, DocAfter, Cascaded, SameShape;
    var d := new Deletion(projected);
    d.RemoveTarget(target);
    CascadedShape(projected, target);
    ops := CascadeOperations(projected, d.next);
    ReplayConcat(schema, pending, ops);
    affected := d.affected;
  }

  function RuleFrom(src: seq<string>): AclRule {
    AclRule(src, ["d"], map[], ["src", "dst"])
  }

  /** A deletion whose draft shows its rules in another order than the cleaned document. */
  lemma DeletionCanReorder()
    ensures var t := Target(TagOwners, "tag:t");
            var s := Schema(None, None, Some(map["tag:t" := ["u"]]),
                            Some([RuleFrom(["u", "tag:t"]), RuleFrom(["u"]), RuleFrom(["c"])]),
                            None, None, None, None, None);
            Exists(s, t) && SameShape(s, Cascaded(s, t)) && DocAfter(s, Cascaded(s, t)) != DocOf(Cascaded(s, t))
  {
    var t := Target(TagOwners, "tag:t");
    var a, b, c := RuleFrom(["u", "tag:t"]), RuleFrom(["u"]), RuleFrom(["c"]);
    var s := Schema(None, None, Some(map["tag:t" := ["u"]]), Some([a, b, c]), None, None, None, None, None);
    var n := Cascaded(s, t);
    CascadedShape(s, t);
    ReorderCleans(t, a, b, c);
    assert n.acls == Some([b, b, c]);
    ReorderJson(a, b, c);
    hide *;
    ReorderShows(s, n, a, b, c);
  }

  lemma KeepsOne(v: string, ts: set<Target>)
    requires !Refers(v, ts)
    ensures Without([v], ts) == [v]
  {
    hide Refers;
    WithoutSnoc([], v, ts);
    WithoutNone(ts);
    assert [] + [v] == [v];
  }

  lemma DropsSecond(v: string, w: string, ts: set<Target>)
    requires !Refers(v, ts) && Refers(w, ts)
    ensures Without([v, w], ts) == [v]
  {
    hide Refers, Without;
    KeepsOne(v, ts);
    WithoutSnoc([v], w, ts);
    assert [v] + [w] == [v, w];
  }

  lemma TagRefers(t: Target)
    requires t == Target(TagOwners, "tag:t")
    ensures !Refers("u", {t}) && !Refers("d", {t}) && !Refers("c", {t}) && Refers("tag:t", {t})
  {
  }

  lemma FlatMapThree<T>(a: T, b: T, c: T, f: T -> Option<T>, x: T, y: T, z: T)
    requires f(a) == Some(x) && f(b) == Some(y) && f(c) == Some(z)
    ensures FlatMap([a, b, c], f) == [x, y, z]
  {
    hide FlatMap;
    FlatMapNone(f);
    FlatMapSnoc([], a, f);
    FlatMapSnoc([a], b, f);
    FlatMapSnoc([a, b], c, f);
    assert [] + [a] == [a] && [a] + [b] == [a, b] && [a, b] + [c] == [a, b, c];
    assert [] + [x] == [x] && [x] + [y] == [x, y] && [x, y] + [z] == [x, y, z];
  }

  lemma ReorderCleans(t: Target, a: AclRule, b: AclRule, c: AclRule)
    requires t == Target(TagOwners, "tag:t")
    requires a == RuleFrom(["u", "tag:t"]) && b == RuleFrom(["u"]) && c == RuleFrom(["c"])
    ensures FlatMap([a, b, c], r => CleanRule(r, {t})) == [b, b, c]
  {
    hide Refers, Without, FlatMap;
    TagRefers(t);
    DropsSecond("u", "tag:t", {t});
    KeepsOne("u", {t});
    KeepsOne("d", {t});
    KeepsOne("c", {t});
    FlatMapThree(a, b, c, r => CleanRule(r, {t}), b, b, c);
  }

  lemma ReorderJson(a: AclRule, b: AclRule, c: AclRule)
    requires a == RuleFrom(["u", "tag:t"]) && b == RuleFrom(["u"]) && c == RuleFrom(["c"])
    ensures RuleJson(a) != RuleJson(b) && RuleJson(b) != RuleJson(c) && RuleJson(a) != RuleJson(c)
  {
    assert RuleJson(a).fields["src"] == Texts(["u", "tag:t"]) && RuleJson(b).fields["src"] == Texts(["u"])
        && RuleJson(c).fields["src"] == Texts(["c"]);
    assert |Texts(["u", "tag:t"]).items| == 2 && |Texts(["u"]).items| == 1 && |Texts(["c"]).items| == 1;
    assert Texts(["u"]).items[0] == Text("u") && Texts(["c"]).items[0] == Text("c");
  }

  lemma ReorderShows(s: Schema, n: Schema, a: AclRule, b: AclRule, c: AclRule)
    requires SameShape(s, n) && s.acls == Some([a, b, c]) && n.acls == Some([b, b, c])
    requires RuleJson(a) != RuleJson(b) && RuleJson(b) != RuleJson(c) && RuleJson(a) != RuleJson(c)
    ensures DocAfter(s, n) != DocOf(n)
  {
    hide *;
    DocExact(s, n);
    ArrayPatch.ReplayOutOfOrder(RuleJson(a), RuleJson(b), RuleJson(c));
    AclsExact(s, n);
    assert Each([a, b, c], RuleJson) == [RuleJson(a), RuleJson(b), RuleJson(c)] by {
      EachThree(a, b, c);
    }
    assert Each([b, b, c], RuleJson) == [RuleJson(b), RuleJson(b), RuleJson(c)] by {
      EachThree(b, b, c);
    }
  }

  lemma EachThree(a: AclRule, b: AclRule, c: AclRule)
    ensures Each([a, b, c], RuleJson) == [RuleJson(a), RuleJson(b), RuleJson(c)]
  {
    hide RuleJson;
  }

  lemma AclsExact(s: Schema, n: Schema)
    requires SameShape(s, n) && s.acls.Some? && n.acls.Some?
    ensures "acls" in EditableSections()
    ensures SectionExact(s, n, "acls") <==>
            ArrayPatch.Fits(Lcs.Walk(Each(s.acls.value, RuleJson), Each(n.acls.value, RuleJson), 0, 0), 0, 0)
  {
    hide Each, RuleJson, Lcs.Walk, ArrayPatch.Fits;
  }

  /** A deletion whose draft keeps the group as an owner: the tag with the empty name has no pointer. */
  lemma DeletionCanMissAKey()
    ensures var t := Target(Groups, "group:a");
            var s := Schema(Some(map["group:a" := []]), None, Some(map["" := ["group:a", "u"]]), None, None, None,
                None, None, None);
            Exists(s, t) && SameShape(s, Cascaded(s, t)) && DocAfter(s, Cascaded(s, t)) != DocOf(Cascaded(s, t))
  {
    var t := Target(Groups, "group:a");
    var s := Schema(Some(map["group:a" := []]), None, Some(map["" := ["group:a", "u"]]), None, None, None, None,
        None, None);
    var n := Cascaded(s, t);
    CascadedShape(s, t);
    OwnersKept(s, t, "", "u");
    OwnersKept(s, t, "", "group:a");
    EmptyKeyMissed(s, n);
  }

  lemma EmptyKeyMissed(s: Schema, n: Schema)
    requires SameShape(s, n) && s.tagOwners.Some? && "" in s.tagOwners.value && "group:a" in s.tagOwners.value[""]
    requires n.tagOwners.Some? && "" in n.tagOwners.value && "group:a" !in n.tagOwners.value[""]
    ensures DocAfter(s, n) != DocOf(n)
  {
    hide DocAfter, DocOf, SameShape, SectionExact;
    DocExact(s, n);
    OwnersExact(s, n);
    TextsDiffer(s.tagOwners.value[""], n.tagOwners.value[""], "group:a");
  }

  lemma OwnersExact(s: Schema, n: Schema)
    requires SameShape(s, n) && s.tagOwners.Some? && n.tagOwners.Some?
    ensures "tagOwners" in EditableSections()
    ensures SectionExact(s, n, "tagOwners") <==>
              EmptyKeyStays(EntriesJson(s.tagOwners.value), EntriesJson(n.tagOwners.value))
  {
    hide EmptyKeyStays, EntriesJson;
  }

  lemma TextsDiffer(x: seq<string>, y: seq<string>, v: string)
    requires v in x && v !in y
    ensures Texts(x) != Texts(y)
  {
    var i :| 0 <= i < |x| && x[i] == v;
    if |x| == |y| {
      assert Texts(x).items[i] == Text(x[i]) && Texts(y).items[i] == Text(y[i]);
    }
    assert |Texts(x).items| == |x| && |Texts(y).items| == |y|;
  }
}
