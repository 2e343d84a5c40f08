/**
 Staged patch operations on a policy document, and how they are replayed (ui/src/lib/policyDraft.ts; RFC
 6902 section 4).
 */
module SchemaPatch {
  import opened Common
  import opened Decimals
  import opened Json
  import opened Pointer
  import ArrayPatch
  import Lcs

  /** `Other` stands for move, copy and test, which a draft ignores. */
  datatype PatchOp = Add(path: string, value: Json) | Replace(path: string,
      value: Json) | Remove(path: string) | Other(path: string)

  // ----- Array indices as text

  /** `0`, or digits that do not start with 0. */
  predicate IsArrayIndex(s: string) {
    s == "0" || (s != "" && s[0] != '0' && AllDigits(s))
  }

  function ArrayIndex(s: string): int {
    if IsArrayIndex(s) then NumberOf(s) else -1
  }

  /** An index written as text is read back as that index, and can never be mistaken for the end of the array. */
  lemma IndexRoundTrip(n: nat)
    ensures ArrayIndex(Decimal(n)) == n && Decimal(n) != "-" && Decimal(n) != ""
  {
    DecimalReads(n);
    assert IsDigit(Decimal(n)[0]) && !IsDigit('-');
    if n == 0 {
      assert Decimal(0) == "0";
    }
  }

  // ----- applySchemaOperation

  function EditableSections(): set<string> {
    {"groups", "hosts", "tagOwners", "acls", "grants", "ssh", "autoApprovers", "tests", "sshTests"}
  }

  /** The last step: the key that is set or removed. An empty key does nothing. */
  function Put(parent: Json, key: string, op: PatchOp): Json {
    if key == "" then parent
    else
      match parent
      case Arr(items) => Arr(PutItem(items, if key == "-" then |items| else ArrayIndex(key), op))
      case Obj(fields) => Obj(PutField(fields, key, op))
      case Entry(keys, fields) => var after := PutField(fields, key, op); Entry(KeysAfter(keys, key, after), after)
      case _ => parent
  }

  /** A new key comes last, a removed one leaves its place, any other stays where it is. */
  function KeysAfter(keys: seq<string>, key: string, after: Fields): seq<string> {
    if key !in after then WithoutKey(keys, key) else if key in keys then keys else keys + [key]
  }

  function WithoutKey(keys: seq<string>, key: string): seq<string> {
    if keys == [] then []
    else WithoutKey(keys[..|keys| - 1], key) + if keys[|keys| - 1] == key then [] else [keys[|keys| - 1]]
  }

  function PutItem(items: seq<Json>, index: int, op: PatchOp): seq<Json> {
    if index < 0 || index > |items| then items
    else if op.Add? then items[..index] + [op.value] + items[index..]
    else if op.Replace? && index < |items| then items[index := op.value]
    else if op.Remove? && index < |items| then items[..index] + items[index + 1..]
    else items
  }

  function PutField(fields: Fields, key: string, op: PatchOp): Fields {
    if op.Add? || (op.Replace? && key in fields) then fields[key := op.value]
    else if op.Remove? then fields - {key}
    else fields
  }

  /** What an add creates on its way to a key that is not there yet. */
  function Container(next: string): Json {
    if next == "-" || IsArrayIndex(next) then Arr([]) else Obj(map[])
  }

  /** One step down per segment. */
  function ApplyAt(parent: Json, parts: seq<string>, op: PatchOp): (after: Json)
    requires parts != []
    ensures parent.Obj? ==> after.Obj?
    decreases |parts|
  {
    if |parts| == 1 then Put(parent, parts[0], op)
    else
      match parent
      case Arr(items) => ApplyItem(items, parts, op)
      case Obj(fields) => ApplyField(fields, parts, op)
      case Entry(keys, fields) =>
        var after := ApplyField(fields, parts, op).fields;
        Entry(KeysAfter(keys, parts[0], after), after)
      case _ => parent
  }

  function ApplyItem(items: seq<Json>, parts: seq<string>, op: PatchOp): Json
    requires |parts| > 1
    decreases |parts|, 0
  {
    var i := ArrayIndex(parts[0]);
    if 0 <= i < |items| then Arr(items[i := ApplyAt(items[i], parts[1..], op)]) else Arr(items)
  }

  function ApplyField(fields: Fields, parts: seq<string>, op: PatchOp): (after: Json)
    requires |parts| > 1
    ensures after.Obj?
    decreases |parts|, 0
  {
    if parts[0] in fields then Obj(fields[parts[0] := ApplyAt(fields[parts[0]], parts[1..], op)])
    else if op.Add? then Obj(fields[parts[0] := ApplyAt(Container(parts[1]), parts[1..], op)])
    else Obj(fields)
  }

  // ----- Reading a document at a path

  function Get(j: Json, parts: seq<string>): Option<Json>
    decreases |parts|
  {
    if parts == [] then Some(j)
    else
      match j
      case Arr(items) =>
        var i := ArrayIndex(parts[0]); if 0 <= i < |items| then Get(items[i], parts[1..]) else None
      case Obj(fields) => if parts[0] in fields then Get(fields[parts[0]], parts[1..]) else None
      case Entry(_, fields) => if parts[0] in fields then Get(fields[parts[0]], parts[1..]) else None
      case _ => None
  }

  /** What an operation does where its path ends: to the one key, or the one place, and to nothing beside it. */
  ghost predicate PutAs(before: Json, key: string, op: PatchOp, after: Json) {
    match before
    case Arr(items) =>
      after.Arr? && PlacedAs(items, if key == "-" then |items| else ArrayIndex(key), op, after.items)
    case Obj(fields) => after.Obj? && FieldAs(fields, key, op, after.fields)
    case Entry(_, fields) => after.Entry? && FieldAs(fields, key, op, after.fields)
    case _ => after == before
  }

  ghost predicate FieldAs(before: Fields, key: string, op: PatchOp, after: Fields) {
    && (forall k :: k != key ==> (k in after <==> k in before) && (k in before ==> after[k] == before[k]))
    && (op.Add? || (op.Replace? && key in before) ==> key in after && after[key] == op.value)
    && (op.Replace? && key !in before ==> key !in after)
    && (op.Remove? ==> key !in after)
  }

  /** RFC 6902: an insertion moves up what stands at and after its place, and a removal closes the gap. */
  ghost predicate PlacedAs(before: seq<Json>, i: int, op: PatchOp, after: seq<Json>) {
    if op.Add? && 0 <= i <= |before| then
      && |after| == |before| + 1 && after[i] == op.value
      && forall k :: 0 <= k < |before| ==> before[k] == after[if k < i then k else k + 1]
    else if op.Remove? && 0 <= i < |before| then
      && |after| == |before| - 1
      && forall k :: 0 <= k < |after| ==> after[k] == before[if k < i then k else k + 1]
    else
      && |after| == |before|
      && forall k :: 0 <= k < |after| ==> after[k] == if k == i && op.Replace? then op.value else before[k]
  }

  lemma PutMeans(before: Json, key: string, op: PatchOp)
    requires !op.Other?
    ensures key != "" ==> PutAs(before, key, op, Put(before, key, op))
    ensures key == "" ==> Put(before, key, op) == before
  {
    hide ArrayIndex, KeysAfter;
  }

  /** Following the path to its end, one finds what was there with the operation done to its last segment. */
  lemma {:induction false} AppliedThere(j: Json, parts: seq<string>, op: PatchOp)
    requires parts != [] && !op.Other? && Get(j, parts[..|parts| - 1]).Some?
    ensures var n := |parts| - 1;
            Get(ApplyAt(j, parts, op), parts[..n]) == Some(Put(Get(j, parts[..n]).value, parts[n], op))
    decreases |parts|
  {
    hide Put, ArrayIndex, KeysAfter;
    var n := |parts| - 1;
    if n > 0 {
      var rest := parts[1..];
      assert parts[..n][1..] == rest[..n - 1] && rest[n - 1] == parts[n];
      match j
      case Arr(items) => AppliedThere(items[ArrayIndex(parts[0])], rest, op);
      case Obj(fields) => AppliedThere(fields[parts[0]], rest, op);
      case Entry(_, fields) => AppliedThere(fields[parts[0]], rest, op);
    }
  }

  /** Two segments lead to different places of any document. */
  ghost predicate Apart(x: string, y: string) {
    x != y && (ArrayIndex(x) != ArrayIndex(y) || ArrayIndex(x) == -1)
  }

  /** A path that leaves the operation's before its end reads what it read. */
  lemma {:induction false} KeptElsewhere(j: Json, parts: seq<string>, op: PatchOp, other: seq<string>, k: nat)
    requires k < |parts| - 1 && k < |other| && parts[..k] == other[..k] && Apart(parts[k], other[k])
    ensures Get(ApplyAt(j, parts, op), other) == Get(j, other)
    decreases k, 1
  {
    hide Put, ArrayIndex, KeysAfter, Container;
    if k > 0 {
      var rest, others := parts[1..], other[1..];
      assert parts[0] == parts[..k][0] == other[..k][0] == other[0];
      assert rest[..k - 1] == parts[..k][1..] == other[..k][1..] == others[..k - 1];
      match j
      case Arr(items) =>
        if 0 <= ArrayIndex(parts[0]) < |items| {
          KeptElsewhere(items[ArrayIndex(parts[0])], rest, op, others, k - 1);
        }
      case Obj(fields) => KeptBelow(fields, parts, op, other, k);
      case Entry(_, fields) => KeptBelow(fields, parts, op, other, k);
      case _ =>
    }
  }

  lemma {:induction false} KeptBelow(fields: Fields, parts: seq<string>, op: PatchOp, other: seq<string>, k: nat)
    requires 0 < k < |parts| - 1 && k < |other| && parts[..k] == other[..k] && Apart(parts[k], other[k])
    ensures Get(ApplyField(fields, parts, op), other) == Get(Obj(fields), other)
    decreases k, 0
  {
    var rest, others := parts[1..], other[1..];
    assert parts[0] == parts[..k][0] == other[..k][0] == other[0];
    assert rest[..k - 1] == parts[..k][1..] == other[..k][1..] == others[..k - 1];
    if parts[0] in fields {
      KeptElsewhere(fields[parts[0]], rest, op, others, k - 1);
    } else {
      KeptElsewhere(Container(parts[1]), rest, op, others, k - 1);
    }
    hide Put, ArrayIndex, KeysAfter;
  }

  /** Nothing outside the nine editable sections is touched, and only three kinds of operation do anything. */
  lemma OnlySections(root: Fields, op: PatchOp, section: string)
    requires section !in {"groups", "hosts", "tagOwners", "acls", "grants", "ssh", "autoApprovers", "tests", "sshTests"}
             || op.Other?
    ensures var after := ApplyOperation(root, op);
            (section in after <==> section in root) && (section in root ==> after[section] == root[section])
  {
    hide Segments, Container, ApplyAt, EditableSections;
    var parts := if op.Other? || op.path == "" || op.path[0] != '/' then [] else Segments(op.path);
    if parts != [] && parts[0] != section {
      FirstKeyOnly(root, parts, op, section);
    }
    Sections();
  }

  lemma Sections()
    ensures EditableSections() ==
              {"groups", "hosts", "tagOwners", "acls", "grants", "ssh", "autoApprovers", "tests", "sshTests"}
  {
  }

  lemma FirstKeyOnly(root: Fields, parts: seq<string>, op: PatchOp, other: string)
    requires parts != [] && other != parts[0]
    ensures var after := ApplyAt(Obj(root), parts, op).fields;
            (other in after <==> other in root) && (other in root ==> after[other] == root[other])
  {
    hide Container, ArrayIndex;
  }

  function ApplyOperation(root: Fields, op: PatchOp): Fields {
    if op.Other? || op.path == "" || op.path[0] != '/' then root
    else
      var parts := Segments(op.path);
      if |parts| == 0 || parts[0] !in EditableSections() then root else ApplyAt(Obj(root), parts, op).fields
  }

  function Replay(root: Fields, ops: seq<PatchOp>): Fields {
    if ops == [] then root else ApplyOperation(Replay(root, ops[..|ops| - 1]), ops[|ops| - 1])
  }

  method SchemaWithPendingChanges(schema: Fields, pending: seq<PatchOp>) returns (draft: Fields)
    ensures draft == Replay(schema, pending)
  {
    hide ApplyOperation;
    draft := schema;
    for i := 0 to |pending|
      invariant draft == Replay(schema, pending[..i])
    {
      assert pending[..i + 1][..i] == pending[..i];
      draft := ApplyOperation(draft, pending[i]);
    }
    assert pending[..|pending|] == pending;
  }

  lemma {:induction false} ReplayConcat(root: Fields, x: seq<PatchOp>, y: seq<PatchOp>)
    ensures Replay(root, x + y) == Replay(Replay(root, x), y)
    decreases |y|
  {
    hide ApplyOperation;
    if y == [] {
      assert x + y == x;
    } else {
      ReplayConcat(root, x, y[..|y| - 1]);
      assert (x + y)[..|x + y| - 1] == x + y[..|y| - 1];
    }
  }

  lemma ReplayOne(root: Fields, op: PatchOp)
    ensures Replay(root, [op]) == ApplyOperation(root, op)
  {
    hide ApplyOperation;
    assert [op][..0] == [];
    assert Replay(root, []) == root;
  }

  /** An operation on a key of a section that is there. */
  lemma OnSection(root: Fields, section: string, key: string, op: PatchOp)
    requires section in EditableSections() && section in root && !op.Other? && op.path == PointerTo([section, key])
    ensures ApplyOperation(root, op) == root[section := Put(root[section], key, op)]
  {
    hide Put, EditableSections, PointerTo, Segments, Container;
    PointerRoundTrip([section, key]);
    SlashFirst([section, key]);
    assert [section] + [key] == [section, key];
    FieldStep(root, section, [key], op);
    PutLast(root[section], key, op);
  }

  lemma PutLast(parent: Json, key: string, op: PatchOp)
    ensures ApplyAt(parent, [key], op) == Put(parent, key, op)
  {
    hide Put;
  }

  lemma FieldStep(fields: Fields, key: string, rest: seq<string>, op: PatchOp)
    requires key in fields && rest != []
    ensures ApplyAt(Obj(fields), [key] + rest, op) == Obj(fields[key := ApplyAt(fields[key], rest, op)])
  {
    assert ([key] + rest)[1..] == rest;
  }

  /** An operation on a key two levels down. */
  lemma OnSubsection(root: Fields, section: string, inner: Fields, sub: string, key: string, op: PatchOp)
    requires section in EditableSections() && section in root && root[section] == Obj(inner) && sub in inner
    requires !op.Other? && op.path == PointerTo([section, sub, key])
    ensures ApplyOperation(root, op) == root[section := Obj(inner[sub := Put(inner[sub], key, op)])]
  {
    hide Put, EditableSections, PointerTo, Segments, Container;
    PointerRoundTrip([section, sub, key]);
    SlashFirst([section, sub, key]);
    assert [section, sub, key] == [section] + [sub, key] && [sub, key] == [sub] + [key];
    FieldStep(root, section, [sub, key], op);
    FieldStep(inner, sub, [key], op);
    PutLast(inner[sub], key, op);
  }

  lemma SlashFirst(segments: seq<string>)
    requires segments != []
    ensures PointerTo(segments) != "" && PointerTo(segments)[0] == '/'
  {
    PointerIsJoined(segments);
  }

  // ----- mapOperations

  datatype KeyEdit = KeySet(key: string, value: Json) | KeyAdd(key: string, value: Json) | KeyRemove(key: string)

  function EditKey(m: Fields, e: KeyEdit): Fields {
    if e.key == "" then m
    else
      match e
      case KeySet(k, v) => if k in m then m[k := v] else m
      case KeyAdd(k, v) => m[k := v]
      case KeyRemove(k) => m - {k}
  }

  function EditKeys(m: Fields, edits: seq<KeyEdit>): Fields {
    if edits == [] then m else EditKey(EditKeys(m, edits[..|edits| - 1]), edits[|edits| - 1])
  }

  function KeyOp(base: seq<string>, e: KeyEdit): PatchOp {
    match e
    case KeySet(k, v) => Replace(PointerTo(base + [k]), v)
    case KeyAdd(k, v) => Add(PointerTo(base + [k]), v)
    case KeyRemove(k) => Remove(PointerTo(base + [k]))
  }

  function KeyOps(base: seq<string>, edits: seq<KeyEdit>): seq<PatchOp> {
    seq(|edits|, i requires 0 <= i < |edits| => KeyOp(base, edits[i]))
  }

  /** What replaying comes to: the new map, except that the empty key cannot be addressed. */
  ghost function Merged(before: Fields, after: Fields): Fields {
    map k <- before.Keys + after.Keys | k in (if k == "" then before else after) :: if k == "" then before[k]
        else after[k]
  }

  /** Keys of `done` have been dealt with. */
  ghost function Midway(before: Fields, after: Fields, done: set<string>): Fields {
    map k <- before.Keys + after.Keys | k in (if k == "" || k !in done then before else after) :: if k == ""
        || k !in done then before[k] else after[k]
  }

  lemma EditSnoc(m: Fields, edits: seq<KeyEdit>, e: KeyEdit)
    ensures EditKeys(m, edits + [e]) == EditKey(EditKeys(m, edits), e)
  {
    assert (edits + [e])[..|edits|] == edits;
  }

  lemma KeyOpsSnoc(base: seq<string>, edits: seq<KeyEdit>, e: KeyEdit)
    ensures KeyOps(base, edits + [e]) == KeyOps(base, edits) + [KeyOp(base, e)]
  {
    hide KeyOp;
  }

  /** `${path}/${escapePointer(key)}` is the pointer one segment longer. */
  lemma Longer(base: seq<string>, key: string)
    ensures PointerTo(base) + "/" + EscapeToken(key) == PointerTo(base + [key])
  {
    hide EscapeToken;
    assert (base + [key])[..|base|] == base;
  }

  /** Both maps say the same of these keys. */
  ghost predicate AgreeOn(before: Fields, after: Fields, keys: set<string>) {
    forall k :: k in keys ==> (k in before <==> k in after) && (k in before ==> before[k] == after[k])
  }

  lemma AgreeOnAll(before: Fields, after: Fields, keys: set<string>)
    requires keys == before.Keys + after.Keys
    ensures AgreeOn(before, after, keys) <==> before == after
  {
    if AgreeOn(before, after, keys) {
      assert before.Keys == after.Keys;
    }
  }

  lemma AgreeOnNone(before: Fields, after: Fields)
    ensures AgreeOn(before, after, {})
  {
  }

  lemma AgreeOnMore(before: Fields, after: Fields, keys: set<string>, key: string)
    ensures AgreeOn(before, after, keys + {key}) <==>
            AgreeOn(before, after, keys)
            && (key in before <==> key in after) && (key in before ==> before[key] == after[key])
  {
  }

  /** The operations that turn one map into another; the object's keys come in any order. */
  method MapOperations(path: string, before: Fields, after: Fields, ghost base: seq<string>)
      returns (ops: seq<PatchOp>, ghost edits: seq<KeyEdit>)
    requires path == PointerTo(base)
    ensures ops == KeyOps(base, edits)
    ensures EditKeys(before, edits) == Merged(before, after)
    ensures before == after ==> edits == []
    ensures ops == [] <==> before == after
  {
    hide KeyOp, PointerTo, EscapeToken, KeyOps, EditKeys, AgreeOn;
    ops, edits := [], [];
    AgreeOnNone(before, after);
    EditNone(before, base);
    var left := before.Keys;
    ghost var done: set<string> := {};
    assert Midway(before, after, {}) == before;
    while left != {}
      invariant left <= before.Keys && done == before.Keys - left
      invariant ops == KeyOps(base, edits) && EditKeys(before, edits) == Midway(before, after, done)
      invariant before == after ==> edits == []
      invariant ops == [] <==> AgreeOn(before, after, done)
      decreases left
    {
      var key :| key in left;
      var entryPath := path + "/" + EscapeToken(key);
      Longer(base, key);
      if key !in after {
        StepKey(before, after, done, KeyRemove(key));
        KeyOpIs(base, KeyRemove(key));
        EditSnoc(before, edits, KeyRemove(key));
        KeyOpsSnoc(base, edits, KeyRemove(key));
        ops, edits := ops + [Remove(entryPath)], edits + [KeyRemove(key)];
      } else if before[key] != after[key] {
        StepKey(before, after, done, KeySet(key, after[key]));
        KeyOpIs(base, KeySet(key, after[key]));
        EditSnoc(before, edits, KeySet(key, after[key]));
        KeyOpsSnoc(base, edits, KeySet(key, after[key]));
        ops, edits := ops + [Replace(entryPath, after[key])], edits + [KeySet(key, after[key])];
      } else {
        SameKey(before, after, done, key);
      }
      AgreeOnMore(before, after, done, key);
      left, done := left - {key}, done + {key};
    }
    left := after.Keys;
    while left != {}
      invariant left <= after.Keys && done == before.Keys + (after.Keys - left)
      invariant ops == KeyOps(base, edits) && EditKeys(before, edits) == Midway(before, after, done)
      invariant before == after ==> edits == []
      invariant ops == [] <==> AgreeOn(before, after, done)
      decreases left
    {
      var key :| key in left;
      if key !in before {
        var entryPath := path + "/" + EscapeToken(key);
        Longer(base, key);
        StepKey(before, after, done, KeyAdd(key, after[key]));
        KeyOpIs(base, KeyAdd(key, after[key]));
        EditSnoc(before, edits, KeyAdd(key, after[key]));
        KeyOpsSnoc(base, edits, KeyAdd(key, after[key]));
        ops, edits := ops + [Add(entryPath, after[key])], edits + [KeyAdd(key, after[key])];
      } else {
        assert done + {key} == done;
      }
      AgreeOnMore(before, after, done, key);
      left, done := left - {key}, done + {key};
    }
    AgreeOnAll(before, after, done);
    AllDone(before, after, done);
  }

  lemma EditNone(before: Fields, base: seq<string>)
    ensures EditKeys(before, []) == before && KeyOps(base, []) == []
  {
  }

  lemma KeyOpIs(base: seq<string>, e: KeyEdit)
    ensures e.KeySet? ==> KeyOp(base, e) == Replace(PointerTo(base + [e.key]), e.value)
    ensures e.KeyAdd? ==> KeyOp(base, e) == Add(PointerTo(base + [e.key]), e.value)
    ensures e.KeyRemove? ==> KeyOp(base, e) == Remove(PointerTo(base + [e.key]))
  {
    hide PointerTo;
  }

  /** One key dealt with. */
  lemma StepKey(before: Fields, after: Fields, done: set<string>, e: KeyEdit)
    requires e.key !in done
    requires e.KeyRemove? ==> e.key in before && e.key !in after
    requires !e.KeyRemove? ==> e.key in after && e.value == after[e.key] && (e.KeySet? <==> e.key in before)
    ensures EditKey(Midway(before, after, done), e) == Midway(before, after, done + {e.key})
  {
    assert EditKey(Midway(before, after, done), e).Keys == Midway(before, after, done + {e.key}).Keys;
  }

  lemma SameKey(before: Fields, after: Fields, done: set<string>, key: string)
    requires key in before && key in after && before[key] == after[key]
    ensures Midway(before, after, done + {key}) == Midway(before, after, done)
  {
  }

  lemma AllDone(before: Fields, after: Fields, done: set<string>)
    requires done == before.Keys + after.Keys
    ensures Midway(before, after, done) == Merged(before, after)
  {
  }

  /** A map is replayed exactly unless its empty key is added, removed or changed. */
  lemma MergedExact(before: Fields, after: Fields)
    ensures Merged(before, after) == after <==>
              (("" in before <==> "" in after) && ("" in before && "" in after ==> before[""] == after[""]))
  {
    var m := Merged(before, after);
    assert "" in m <==> "" in before;
    if ("" in before <==> "" in after) && ("" in before && "" in after ==> before[""] == after[""]) {
      assert m.Keys == after.Keys;
    }
  }

  /** Replaying key operations on a section that is a map. */
  lemma {:induction false} KeysReplay(root: Fields, section: string, m: Fields, edits: seq<KeyEdit>)
    requires section in EditableSections() && section in root && root[section] == Obj(m)
    ensures Replay(root, KeyOps([section], edits)) == root[section := Obj(EditKeys(m, edits))]
  {
    hide EditableSections, ApplyOperation, KeyOp;
    if edits == [] {
      assert KeyOps([section], edits) == [];
      assert root[section := Obj(m)] == root;
    } else {
      var init, e := edits[..|edits| - 1], edits[|edits| - 1];
      KeysReplay(root, section, m, init);
      assert edits == init + [e];
      KeyOpsSnoc([section], init, e);
      OneKey(root[section := Obj(EditKeys(m, init))], section, EditKeys(m, init), e);
      ReplaySnoc(root, KeyOps([section], init), KeyOp([section], e));
    }
  }

  lemma ReplaySnoc(root: Fields, ops: seq<PatchOp>, op: PatchOp)
    ensures Replay(root, ops + [op]) == ApplyOperation(Replay(root, ops), op)
  {
    hide ApplyOperation;
    assert (ops + [op])[..|ops|] == ops;
  }

  lemma OneKey(root: Fields, section: string, m: Fields, e: KeyEdit)
    requires section in EditableSections() && section in root && root[section] == Obj(m)
    ensures ApplyOperation(root, KeyOp([section], e)) == root[section := Obj(EditKey(m, e))]
  {
    hide EditableSections, ApplyOperation, PointerTo;
    assert [section] + [e.key] == [section, e.key];
    OnSection(root, section, e.key, KeyOp([section], e));
  }

  /** Replaying key operations on a map inside a section. */
  lemma {:induction false} SubKeysReplay(root: Fields, section: string, inner: Fields, sub: string, m: Fields,
      edits: seq<KeyEdit>)
    requires section in EditableSections() && section in root && root[section] == Obj(inner) && sub in inner
               && inner[sub] == Obj(m)
    ensures Replay(root, KeyOps([section, sub], edits)) == root[section := Obj(inner[sub := Obj(EditKeys(m, edits))])]
  {
    hide EditableSections, ApplyOperation, KeyOp;
    if edits == [] {
      assert KeyOps([section, sub], edits) == [];
      assert inner[sub := Obj(m)] == inner && root[section := Obj(inner)] == root;
    } else {
      var init, e := edits[..|edits| - 1], edits[|edits| - 1];
      SubKeysReplay(root, section, inner, sub, m, init);
      assert edits == init + [e];
      KeyOpsSnoc([section, sub], init, e);
      var mid := inner[sub := Obj(EditKeys(m, init))];
      OneSubKey(root[section := Obj(mid)], section, mid, sub, EditKeys(m, init), e);
      ReplaySnoc(root, KeyOps([section, sub], init), KeyOp([section, sub], e));
      assert mid[sub := Obj(EditKeys(m, edits))] == inner[sub := Obj(EditKeys(m, edits))];
    }
  }

  lemma OneSubKey(root: Fields, section: string, inner: Fields, sub: string, m: Fields, e: KeyEdit)
    requires section in EditableSections() && section in root && root[section] == Obj(inner) && sub in inner
               && inner[sub] == Obj(m)
    ensures ApplyOperation(root, KeyOp([section, sub], e)) == root[section := Obj(inner[sub := Obj(EditKey(m, e))])]
  {
    hide EditableSections, ApplyOperation, PointerTo;
    assert [section, sub] + [e.key] == [section, sub, e.key];
    OnSubsection(root, section, inner, sub, e.key, KeyOp([section, sub], e));
  }

  // ----- arrayOperations

  function ItemOp(section: string, e: ArrayPatch.Edit<Json>): PatchOp {
    match e
    case Replace(i, v) => PatchOp.Replace(PointerTo([section, Decimal(i)]), v)
    case Remove(i) => PatchOp.Remove(PointerTo([section, Decimal(i)]))
    case Append(v) => Add(PointerTo([section, "-"]), v)
  }

  function ItemOps(section: string, edits: seq<ArrayPatch.Edit<Json>>): seq<PatchOp> {
    seq(|edits|, i requires 0 <= i < |edits| => ItemOp(section, edits[i]))
  }

  /** A section's array operations, addressed by index. */
  method ArrayOperations(section: string, before: seq<Json>, after: seq<Json>) returns (ops: seq<PatchOp>)
    ensures ArrayPatch.Rising(Lcs.Walk(before, after, 0, 0), 0, 0, |before|, |after|)
    ensures ops == ItemOps(section, ArrayPatch.Operations(Lcs.Walk(before, after, 0, 0), before, after))
  {
    hide *;
    var edits := ArrayPatch.ArrayOperations(before, after);
    ops := [];
    ItemOpsNone(section);
    assert edits[..0] == [];
    for i := 0 to |edits|
      invariant ops == ItemOps(section, edits[..i])
    {
      ItemOpsSnoc(section, edits[..i], edits[i]);
      assert edits[..i + 1] == edits[..i] + [edits[i]];
      ops := ops + [ItemOp(section, edits[i])];
    }
    assert edits[..|edits|] == edits;
  }

  lemma ItemOpsNone(section: string)
    ensures ItemOps(section, []) == []
  {
  }

  lemma ItemOpsSnoc(section: string, edits: seq<ArrayPatch.Edit<Json>>, e: ArrayPatch.Edit<Json>)
    ensures ItemOps(section, edits + [e]) == ItemOps(section, edits) + [ItemOp(section, e)]
  {
    hide ItemOp;
  }

  lemma OneItem(root: Fields, section: string, xs: seq<Json>, e: ArrayPatch.Edit<Json>)
    requires section in EditableSections() && section in root && root[section] == Arr(xs)
    ensures ApplyOperation(root, ItemOp(section, e)) == root[section := Arr(ArrayPatch.Apply(e, xs))]
  {
    hide EditableSections, ApplyOperation, PointerTo, Decimal, ArrayIndex, NumberOf;
    match e
    case Replace(i, v) =>
      IndexRoundTrip(i);
      OnSection(root, section, Decimal(i), ItemOp(section, e));
    case Remove(i) =>
      IndexRoundTrip(i);
      OnSection(root, section, Decimal(i), ItemOp(section, e));
    case Append(v) =>
      OnSection(root, section, "-", ItemOp(section, e));
      assert xs[..|xs|] + [v] + xs[|xs|..] == xs + [v];
  }

  lemma {:induction false} ItemsReplay(root: Fields, section: string, xs: seq<Json>, edits: seq<ArrayPatch.Edit<Json>>)
    requires section in EditableSections() && section in root && root[section] == Arr(xs)
    ensures Replay(root, ItemOps(section, edits)) == root[section := Arr(ArrayPatch.ApplyAll(edits, xs))]
    decreases |edits|
  {
    hide EditableSections, ApplyOperation, ItemOp, ArrayPatch.Apply;
    if edits == [] {
      ItemOpsNone(section);
      assert root[section := Arr(xs)] == root;
    } else {
      var e, rest := edits[0], edits[1..];
      var next := root[section := Arr(ArrayPatch.Apply(e, xs))];
      OneItem(root, section, xs, e);
      ItemsReplay(next, section, ArrayPatch.Apply(e, xs), rest);
      assert ItemOps(section, edits) == [ItemOp(section, e)] + ItemOps(section, rest);
      ReplayConcat(root, [ItemOp(section, e)], ItemOps(section, rest));
      ReplayOne(root, ItemOp(section, e));
    }
  }

  /** What an array section is replayed to. */
  ghost function Replayed(before: seq<Json>, after: seq<Json>): seq<Json> {
    ArrayPatch.ReplayExact(before, after);
    ArrayPatch.ApplyAll(ArrayPatch.Operations(Lcs.Walk(before, after, 0, 0), before, after), before)
  }

  ghost predicate InOrder(before: seq<Json>, after: seq<Json>) {
    ArrayPatch.Fits(Lcs.Walk(before, after, 0, 0), 0, 0)
  }

  lemma ReplayedMeans(before: seq<Json>, after: seq<Json>)
    ensures multiset(Replayed(before, after)) == multiset(after)
    ensures Replayed(before, after) == after <==> InOrder(before, after)
  {
    ArrayPatch.ReplayPermutes(before, after);
    ArrayPatch.ReplayExact(before, after);
  }
}
