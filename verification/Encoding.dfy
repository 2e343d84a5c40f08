/** The JSON of a policy document tells the document (ui/src/lib/policyDraft.ts). */
module Encoding {
  import opened Common
  import opened Json
  import opened Cascade
  import opened CascadePatch
  import SchemaPatch

  // ----- What stands where

  /** An array of texts. */
  ghost predicate IsTexts(j: Json, values: seq<string>) {
    && j.Arr? && |j.items| == |values|
    && forall i :: 0 <= i < |values| ==> j.items[i] == Text(values[i])
  }

  /** A field with an array of texts, or no such field. */
  ghost predicate HasTexts(fields: Fields, key: string, values: Option<seq<string>>) {
    match values
    case None => key !in fields
    case Some(v) => key in fields && IsTexts(fields[key], v)
  }

  /** Beside the fields named, those of the rest. */
  ghost predicate Beside(fields: Fields, rest: Fields, named: set<string>) {
    forall k :: k !in named ==> (k in fields <==> k in rest) && (k in rest ==> fields[k] == rest[k])
  }

  ghost predicate IsSides(j: Json, src: seq<string>, dst: seq<string>, rest: Fields, keys: seq<string>) {
    && j.Entry? && j.keys == keys
    && HasTexts(j.fields, "src", Some(src)) && HasTexts(j.fields, "dst", Some(dst))
    && Beside(j.fields, rest, {"src", "dst"})
  }

  ghost predicate IsGrant(j: Json, g: Grant) {
    && j.Entry? && j.keys == g.keys
    && HasTexts(j.fields, "src", Some(g.src)) && HasTexts(j.fields, "dst", Some(g.dst))
    && HasTexts(j.fields, "via", g.via) && Beside(j.fields, g.rest, {"src", "dst", "via"})
  }

  ghost predicate IsTest(j: Json, t: AclTest) {
    && j.Entry? && j.keys == t.keys && "src" in j.fields && j.fields["src"] == Text(t.src)
    && HasTexts(j.fields, "accept", t.accept) && HasTexts(j.fields, "deny", t.deny)
    && Beside(j.fields, t.rest, {"src", "accept", "deny"})
  }

  ghost predicate IsSshTest(j: Json, t: SshTest) {
    && j.Entry? && j.keys == t.keys && "src" in j.fields && j.fields["src"] == Text(t.src)
    && HasTexts(j.fields, "dst", Some(t.dst)) && Beside(j.fields, t.rest, {"src", "dst"})
  }

  ghost predicate IsEntries(j: Json, m: Entries) {
    j.Obj? && j.fields.Keys == m.Keys && forall k :: k in m ==> IsTexts(j.fields[k], m[k])
  }

  ghost predicate IsAuto(j: Json, a: AutoApprovers) {
    && j.Obj? && HasTexts(j.fields, "exitNode", a.exitNode) && Beside(j.fields, a.rest, {"routes", "exitNode"})
    && match a.routes
       case None => "routes" !in j.fields
       case Some(m) => "routes" in j.fields && IsEntries(j.fields["routes"], m)
  }

  lemma RulesShown(r: AclRule, q: SshRule, g: Grant)
    ensures IsSides(RuleJson(r), r.src, r.dst, r.rest, r.keys)
    ensures IsSides(SshJson(q), q.src, q.dst, q.rest, q.keys)
    ensures IsGrant(GrantJson(g), g)
  {
  }

  lemma TestsShown(t: AclTest, u: SshTest)
    ensures IsTest(TestJson(t), t)
    ensures IsSshTest(SshTestJson(u), u)
  {
  }

  /** Every section of the document stands under its name, an array entry for entry. */
  lemma SectionsShown(s: Schema)
    ensures var doc := DocOf(s);
            && (match s.groups case None => "groups" !in doc
                case Some(m) => "groups" in doc && IsEntries(doc["groups"], m))
            && (match s.tagOwners case None => "tagOwners" !in doc
                case Some(m) => "tagOwners" in doc && IsEntries(doc["tagOwners"], m))
            && (match s.hosts case None => "hosts" !in doc
                case Some(m) => "hosts" in doc && IsHosts(doc["hosts"], m))
            && doc.Keys <=
                 {"groups", "hosts", "tagOwners", "acls", "grants", "ssh", "autoApprovers", "tests", "sshTests"}
  {
  }

  lemma AutoShown(s: Schema)
    ensures match s.autoApprovers
            case None => "autoApprovers" !in DocOf(s)
            case Some(a) => "autoApprovers" in DocOf(s) && IsAuto(DocOf(s)["autoApprovers"], a)
  {
  }

  ghost predicate IsHosts(j: Json, m: map<string, string>) {
    j.Obj? && j.fields.Keys == m.Keys && forall k :: k in m ==> j.fields[k] == Text(m[k])
  }

  /** An array of entries, each written by `json`. */
  ghost predicate IsList<T>(doc: Fields, key: string, xs: Option<seq<T>>, json: T -> Json) {
    match xs
    case None => key !in doc
    case Some(v) =>
      && key in doc && doc[key].Arr? && |doc[key].items| == |v|
      && forall i :: 0 <= i < |v| ==> doc[key].items[i] == json(v[i])
  }

  lemma ListsShown(s: Schema)
    ensures var doc := DocOf(s);
            && IsList(doc, "acls", s.acls, RuleJson) && IsList(doc, "grants", s.grants, GrantJson)
            && IsList(doc, "ssh", s.ssh, SshJson) && IsList(doc, "tests", s.tests, TestJson)
            && IsList(doc, "sshTests", s.sshTests, SshTestJson)
  {
  }

  // ----- Nothing is lost

  lemma TextsTell(j: Json, x: seq<string>, y: seq<string>)
    requires IsTexts(j, x) && IsTexts(j, y)
    ensures x == y
  {
    forall i | 0 <= i < |x| ensures x[i] == y[i] {
      assert j.items[i] == Text(x[i]) && j.items[i] == Text(y[i]);
    }
  }

  lemma RestTells(fields: Fields, x: Fields, y: Fields, named: set<string>)
    requires Beside(fields, x, named) && Beside(fields, y, named) && x.Keys !! named && y.Keys !! named
    ensures x == y
  {
    assert forall k :: (k in x <==> k in y) && (k in x ==> x[k] == y[k]);
  }

  lemma RuleTells(r: AclRule, q: AclRule)
    ensures RuleJson(r) == RuleJson(q) ==> r == q
  {
    if RuleJson(r) == RuleJson(q) {
      var f := RuleJson(r).fields;
      TextsTell(f["src"], r.src, q.src);
      TextsTell(f["dst"], r.dst, q.dst);
      RestTells(f, r.rest, q.rest, {"src", "dst"});
    }
  }

  lemma SshTells(r: SshRule, q: SshRule)
    ensures SshJson(r) == SshJson(q) ==> r == q
  {
    if SshJson(r) == SshJson(q) {
      var f := SshJson(r).fields;
      TextsTell(f["src"], r.src, q.src);
      TextsTell(f["dst"], r.dst, q.dst);
      RestTells(f, r.rest, q.rest, {"src", "dst"});
    }
  }

  lemma OptionTells(f: Fields, key: string, x: Option<seq<string>>, y: Option<seq<string>>)
    requires HasTexts(f, key, x) && HasTexts(f, key, y)
    ensures x == y
  {
    if x.Some? && y.Some? {
      TextsTell(f[key], x.value, y.value);
    }
  }

  lemma GrantTells(g: Grant, h: Grant)
    ensures GrantJson(g) == GrantJson(h) ==> g == h
  {
    if GrantJson(g) == GrantJson(h) {
      var f := GrantJson(g).fields;
      OptionTells(f, "src", Some(g.src), Some(h.src));
      OptionTells(f, "dst", Some(g.dst), Some(h.dst));
      OptionTells(f, "via", g.via, h.via);
      RestTells(f, g.rest, h.rest, {"src", "dst", "via"});
    }
  }

  lemma TestTells(t: AclTest, u: AclTest)
    ensures TestJson(t) == TestJson(u) ==> t == u
  {
    if TestJson(t) == TestJson(u) {
      var f := TestJson(t).fields;
      OptionTells(f, "accept", t.accept, u.accept);
      OptionTells(f, "deny", t.deny, u.deny);
      RestTells(f, t.rest, u.rest, {"src", "accept", "deny"});
      assert f["src"] == Text(t.src) && f["src"] == Text(u.src);
    }
  }

  lemma SshTestTells(t: SshTest, u: SshTest)
    ensures SshTestJson(t) == SshTestJson(u) ==> t == u
  {
    if SshTestJson(t) == SshTestJson(u) {
      var f := SshTestJson(t).fields;
      OptionTells(f, "dst", Some(t.dst), Some(u.dst));
      RestTells(f, t.rest, u.rest, {"src", "dst"});
      assert f["src"] == Text(t.src) && f["src"] == Text(u.src);
    }
  }

  lemma EntriesTell(j: Json, m: Entries, n: Entries)
    requires IsEntries(j, m) && IsEntries(j, n)
    ensures m == n
  {
    hide IsTexts;
    forall k | k in m ensures k in n && m[k] == n[k] {
      TextsTell(j.fields[k], m[k], n[k]);
    }
  }

  lemma AutoTells(j: Json, a: AutoApprovers, b: AutoApprovers)
    requires IsAuto(j, a) && IsAuto(j, b)
    ensures a == b
  {
    hide IsEntries, IsTexts, Beside;
    OptionTells(j.fields, "exitNode", a.exitNode, b.exitNode);
    RestTells(j.fields, a.rest, b.rest, {"routes", "exitNode"});
    if a.routes.Some? && b.routes.Some? {
      EntriesTell(j.fields["routes"], a.routes.value, b.routes.value);
    }
  }

  lemma ListTells<T>(doc: Fields, key: string, xs: Option<seq<T>>, ys: Option<seq<T>>, json: T -> Json)
    requires IsList(doc, key, xs, json) && IsList(doc, key, ys, json)
    requires forall x, y :: json(x) == json(y) ==> x == y
    ensures xs == ys
  {
    if xs.Some? && ys.Some? {
      forall i | 0 <= i < |xs.value| ensures xs.value[i] == ys.value[i] {
        assert json(xs.value[i]) == doc[key].items[i] == json(ys.value[i]);
      }
      assert xs.value == ys.value;
    }
  }

  /** Two documents with the same JSON are the same document, the order of the keys of array entries included. */
  lemma DocumentTells(s: Schema, t: Schema)
    requires DocOf(s) == DocOf(t)
    ensures s == t
  {
    hide *;
    var doc := DocOf(s);
    ListsShown(s);
    ListsShown(t);
    forall x, y ensures RuleJson(x) == RuleJson(y) ==> x == y { RuleTells(x, y); }
    forall x, y ensures GrantJson(x) == GrantJson(y) ==> x == y { GrantTells(x, y); }
    forall x, y ensures SshJson(x) == SshJson(y) ==> x == y { SshTells(x, y); }
    forall x, y ensures TestJson(x) == TestJson(y) ==> x == y { TestTells(x, y); }
    forall x, y ensures SshTestJson(x) == SshTestJson(y) ==> x == y { SshTestTells(x, y); }
    ListTells(doc, "acls", s.acls, t.acls, RuleJson);
    ListTells(doc, "grants", s.grants, t.grants, GrantJson);
    ListTells(doc, "ssh", s.ssh, t.ssh, SshJson);
    ListTells(doc, "tests", s.tests, t.tests, TestJson);
    ListTells(doc, "sshTests", s.sshTests, t.sshTests, SshTestJson);
    MapsTell(doc, s, t);
  }

  lemma MapsTell(doc: Fields, s: Schema, t: Schema)
    requires doc == DocOf(s) == DocOf(t)
    ensures s.groups == t.groups && s.tagOwners == t.tagOwners && s.hosts == t.hosts
    ensures s.autoApprovers == t.autoApprovers
  {
    hide DocOf, IsEntries, IsAuto;
    SectionsShown(s);
    SectionsShown(t);
    AutoShown(s);
    AutoShown(t);
    if s.groups.Some? {
      EntriesTell(doc["groups"], s.groups.value, t.groups.value);
    }
    if s.tagOwners.Some? {
      EntriesTell(doc["tagOwners"], s.tagOwners.value, t.tagOwners.value);
    }
    if s.autoApprovers.Some? {
      AutoTells(doc["autoApprovers"], s.autoApprovers.value, t.autoApprovers.value);
    }
    if s.hosts.Some? {
      assert forall k :: k in s.hosts.value ==> Text(s.hosts.value[k]) == Text(t.hosts.value[k]);
      assert s.hosts.value == t.hosts.value;
    }
  }
}
