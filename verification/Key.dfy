/** What may go into authorized_keys: key lines, labels, user names and target refs (internal/sshsync/key.go). */
module Key {
  import opened Common
  import opened Strings
  import Decimals

  // ----- SafeLine

  /** The text before the first space, or all of it. */
  function BeforeSpace(s: string): string {
    if s == "" || s[0] == ' ' then "" else [s[0]] + BeforeSpace(s[1..])
  }

  /** The agent's last check on a line: one line, starting with a key type. */
  predicate SafeLine(line: string) {
    && '\n' !in line && '\r' !in line
    && var typ := BeforeSpace(line);
       HasPrefix(typ, "ssh-") || HasPrefix(typ, "ecdsa-sha2-") || HasPrefix(typ, "sk-")
  }

  predicate SafeLines(lines: seq<string>) {
    forall k :: 0 <= k < |lines| ==> SafeLine(lines[k])
  }

  lemma {:induction false} BeforeSpaceIsPrefix(s: string)
    ensures BeforeSpace(s) <= s
  {
    if s != "" && s[0] != ' ' {
      BeforeSpaceIsPrefix(s[1..]);
      assert s == [s[0]] + s[1..];
    }
  }

  /** A safe line starts with 's' or 'e': it is no comment, so it can be neither marker. */
  lemma SafeLineStart(line: string)
    requires SafeLine(line)
    ensures line != "" && (line[0] == 's' || line[0] == 'e')
  {
    BeforeSpaceIsPrefix(line);
  }

  lemma {:induction false} TypeStart(line: string, start: string)
    requires ' ' !in start
    ensures HasPrefix(BeforeSpace(line), start) <==> HasPrefix(line, start)
  {
    if start != "" && line != "" && line[0] == start[0] {
      assert start == [start[0]] + start[1..] && line == [line[0]] + line[1..];
      TypeStart(line[1..], start[1..]);
      assert BeforeSpace(line)[1..] == BeforeSpace(line[1..]);
      assert HasPrefix(line, start) <==> HasPrefix(line[1..], start[1..]);
    }
  }

  /** One line, and the start of one of the three families of key types. */
  lemma SafeLineMeans(line: string)
    ensures SafeLine(line) <==>
              && '\n' !in line && '\r' !in line
              && ("ssh-" <= line || "ecdsa-sha2-" <= line || "sk-" <= line)
  {
    TypeStart(line, "ssh-");
    TypeStart(line, "ecdsa-sha2-");
    TypeStart(line, "sk-");
  }

  // ----- CleanLabel and Line

  predicate Printable(c: char) { ' ' <= c <= '~' }

  /** unicode.IsSpace. */
  predicate IsSpace(c: char) {
    c in "\t\n\U{0B}\U{0C}\r \U{85}\U{A0}\U{1680}\U{2028}\U{2029}\U{202F}\U{205F}\U{3000}"
        || '\U{2000}' <= c <= '\U{200A}'
  }

  /** White space by code points. */
  lemma SpaceMeans(c: char)
    ensures IsSpace(c) <==>
              || 9 <= c as int <= 13 || c as int in {32, 0x85, 0xA0, 0x1680, 0x2028, 0x2029, 0x202F, 0x205F, 0x3000}
              || 0x2000 <= c as int <= 0x200A
  {
  }

  function TrimLeft(s: string): string {
    if s != "" && IsSpace(s[0]) then TrimLeft(s[1..]) else s
  }

  function TrimRight(s: string): string {
    if s != "" && IsSpace(s[|s| - 1]) then TrimRight(s[..|s| - 1]) else s
  }

  datatype LabelError = TooLong | NotPrintable

  /**
   The gate for labels: printable ASCII, at most 64 of them, trimmed. (The program counts bytes; a
   label that is short only in characters is refused either way, as it is not ASCII.)
   */
  function CleanLabel(text: string): Result<string, LabelError> {
    var trimmed := TrimRight(TrimLeft(text));
    if |trimmed| > 64 then Err(TooLong)
    else if forall k :: 0 <= k < |trimmed| ==> Printable(trimmed[k]) then Ok(trimmed)
    else Err(NotPrintable)
  }

  /** Headscale names are not validated input; anything but visible ASCII becomes '?'. */
  function AsciiOnlySpec(s: string): string {
    seq(|s|, k requires 0 <= k < |s| => if Printable(s[k]) && s[k] != ' ' then s[k] else '?')
  }

  method AsciiOnly(s: string) returns (b: string)
    ensures b == AsciiOnlySpec(s)
  {
    b := "";
    for k := 0 to |s|
      invariant b == AsciiOnlySpec(s)[..k]
    {
      if !Printable(s[k]) || s[k] == ' ' {
        b := b + ['?'];
      } else {
        b := b + [s[k]];
      }
    }
  }

  /** The authorized_keys line for a stored key. */
  function Line(key: string, user: string, comment: string): string {
    key + " " + AsciiOnlySpec(user) + if comment != "" then " " + comment else ""
  }

  /** The canonical form ParseKey stores: a known key type, one space, and base64. */
  ghost predicate Canonical(key: string) {
    && '\n' !in key && '\r' !in key
    && exists typ: string, data: string ::
         && key == typ + " " + data && ' ' !in typ
         && (HasPrefix(typ, "ssh-") || HasPrefix(typ, "ecdsa-sha2-") || HasPrefix(typ, "sk-"))
  }

  lemma {:induction false} BeforeSpaceOf(typ: string, rest: string)
    requires ' ' !in typ
    ensures BeforeSpace(typ + " " + rest) == typ
  {
    var s := typ + " " + rest;
    if typ != "" {
      BeforeSpaceOf(typ[1..], rest);
      assert s[1..] == typ[1..] + " " + rest;
      assert typ == [typ[0]] + typ[1..];
    } else {
      assert s[0] == ' ';
    }
  }

  lemma Visible(user: string, raw: string)
    ensures '\n' !in AsciiOnlySpec(user) && '\r' !in AsciiOnlySpec(user)
    ensures CleanLabel(raw).Ok? ==> '\n' !in CleanLabel(raw).value && '\r' !in CleanLabel(raw).value
  {
    hide TrimLeft, TrimRight;
  }

  lemma NoBreak(key: string, rest: string, c: char)
    requires c !in key && c !in rest
    ensures c !in key + rest
  {
  }

  /** Whatever the Headscale name, the line of a validated key with a cleaned label is safe. */
  lemma LineIsSafe(key: string, user: string, raw: string)
    requires Canonical(key) && CleanLabel(raw).Ok?
    ensures SafeLine(Line(key, user, CleanLabel(raw).value))
  {
    Visible(user, raw);
    hide CleanLabel, AsciiOnlySpec, BeforeSpace;
    var typ: string, data: string :| && key == typ + " " + data && ' ' !in typ
                                     && (HasPrefix(typ, "ssh-") || HasPrefix(typ, "ecdsa-sha2-")
                                         || HasPrefix(typ, "sk-"));
    var comment := CleanLabel(raw).value;
    var tail := " " + AsciiOnlySpec(user) + if comment != "" then " " + comment else "";
    var line := Line(key, user, comment);
    assert line == key + tail;
    NoBreak(key, tail, '\n');
    NoBreak(key, tail, '\r');
    assert line == typ + " " + (data + tail);
    BeforeSpaceOf(typ, data + tail);
  }

  lemma {:induction false} LeftTrimmed(s: string) returns (i: nat)
    ensures i <= |s| && TrimLeft(s) == s[i..] && (forall k :: 0 <= k < i ==> IsSpace(s[k]))
    ensures i < |s| ==> !IsSpace(s[i])
  {
    hide IsSpace;
    i := 0;
    if s != "" && IsSpace(s[0]) {
      var rest := s[1..];
      var n := LeftTrimmed(rest);
      i := n + 1;
      forall k | 0 <= k < i ensures IsSpace(s[k]) {
        assert k > 0 ==> s[k] == rest[k - 1];
      }
    }
  }

  lemma {:induction false} RightTrimmed(s: string) returns (j: nat)
    ensures j <= |s| && TrimRight(s) == s[..j] && (forall k :: j <= k < |s| ==> IsSpace(s[k]))
    ensures j > 0 ==> !IsSpace(s[j - 1])
  {
    hide IsSpace;
    j := |s|;
    if s != "" && IsSpace(s[|s| - 1]) {
      var init := s[..|s| - 1];
      j := RightTrimmed(init);
      forall k | j <= k < |s| ensures IsSpace(s[k]) {
        assert k < |s| - 1 ==> s[k] == init[k];
      }
    }
  }

  /** Between i and j is what is left without the white space at both ends. */
  ghost predicate Trimmed(text: string, i: int, j: int) {
    && 0 <= i <= j <= |text|
    && (forall k :: 0 <= k < i ==> IsSpace(text[k])) && (forall k :: j <= k < |text| ==> IsSpace(text[k]))
    && (i < j ==> !IsSpace(text[i]) && !IsSpace(text[j - 1]))
  }

  lemma TrimmedTo(text: string) returns (i: nat, j: nat)
    ensures i <= j <= |text| && Trimmed(text, i, j) && TrimRight(TrimLeft(text)) == text[i..j]
  {
    hide IsSpace, TrimLeft, TrimRight;
    i := LeftTrimmed(text);
    var left := text[i..];
    var n := RightTrimmed(left);
    j := i + n;
    forall k | j <= k < |text| ensures IsSpace(text[k]) {
      assert text[k] == left[k - i];
    }
    assert n > 0 ==> text[j - 1] == left[n - 1];
  }

  /** A label is kept without the white space at its ends, provided the rest is short visible ASCII and spaces. */
  lemma LabelMeans(text: string) returns (i: nat, j: nat)
    ensures Trimmed(text, i, j)
    ensures CleanLabel(text) ==
              if j - i > 64 then Err(TooLong)
              else if exists k :: i <= k < j && !(' ' <= text[k] <= '~') then Err(NotPrintable)
              else Ok(text[i..j])
  {
    i, j := TrimmedTo(text);
    hide Trimmed, TrimLeft, TrimRight;
    var kept := text[i..j];
    assert forall k :: i <= k < j ==> text[k] == kept[k - i];
    assert forall k :: 0 <= k < |kept| ==> kept[k] == text[i + k];
  }

  /** The line has the parts of the key, then the name with '?' for all but visible ASCII, then those of the label. */
  lemma LineParts(key: string, user: string, comment: string) returns (name: string)
    ensures |name| == |user|
    ensures forall k :: 0 <= k < |user| ==> name[k] == if '!' <= user[k] <= '~' then user[k] else '?'
    ensures Split(Line(key, user, comment), ' ') ==
              Split(key, ' ') + [name] + if comment == "" then [] else Split(comment, ' ')
  {
    name := AsciiOnlySpec(user);
    SplitPlain(name, ' ');
    if comment != "" {
      SplitBoth(name, comment, ' ');
      SplitBoth(key, name + " " + comment, ' ');
      assert Line(key, user, comment) == key + " " + (name + " " + comment);
    } else {
      SplitBoth(key, name, ' ');
      assert Line(key, user, comment) == key + " " + name;
    }
  }

  // ----- User names and target refs

  predicate LowerOrUnderscore(c: char) { 'a' <= c <= 'z' || c == '_' }

  predicate Digit(c: char) { '0' <= c <= '9' }

  /** ^[a-z_][a-z0-9_-]{0,31}$ */
  predicate ValidUnixUser(name: string) {
    && 1 <= |name| <= 32
    && LowerOrUnderscore(name[0])
    && forall k :: 1 <= k < |name| ==> LowerOrUnderscore(name[k]) || Digit(name[k]) || name[k] == '-'
  }

  /** ^(self|[0-9]{1,9})$ */
  predicate ValidRef(ref: string) {
    ref == "self" || (1 <= |ref| <= 9 && forall k :: 0 <= k < |ref| ==> Digit(ref[k]))
  }

  /** A name grows to thirty-two characters: the first a lower-case letter or '_', the others also digits or '-'. */
  lemma UnixUserGrows(name: string, c: char)
    ensures !ValidUnixUser("")
    ensures ValidUnixUser([c]) <==> 'a' <= c <= 'z' || c == '_'
    ensures name != "" ==>
              (ValidUnixUser(name + [c]) <==>
                 && ValidUnixUser(name) && |name| < 32
                 && ('a' <= c <= 'z' || '0' <= c <= '9' || c == '_' || c == '-'))
  {
    if name != "" {
      var longer := name + [c];
      assert longer[|name|] == c && forall k :: 0 <= k < |name| ==> longer[k] == name[k];
    }
  }

  function Pow10(k: nat): nat {
    if k == 0 then 1 else 10 * Pow10(k - 1)
  }

  lemma {:induction false} DecimalLength(n: nat, k: nat)
    requires k > 0
    ensures |Decimals.Decimal(n)| <= k <==> n < Pow10(k)
  {
    if n >= 10 {
      if k == 1 {
        DecimalLength(n / 10, 1);
      } else {
        DecimalLength(n / 10, k - 1);
      }
    } else {
      assert Pow10(k) >= 10 by {
        Pow10Positive(k - 1);
      }
    }
  }

  lemma {:induction false} Pow10Positive(k: nat)
    ensures Pow10(k) >= 1
  {
    if k > 0 {
      Pow10Positive(k - 1);
    }
  }

  /** Container numbers are target refs as long as they have at most nine digits; beside them there is "self". */
  lemma RefOfNumber(n: nat)
    ensures ValidRef(Decimals.Decimal(n)) <==> n < 1_000_000_000
    ensures ValidRef("self")
  {
    var text := Decimals.Decimal(n);
    Decimals.DecimalReads(n);
    DecimalLength(n, 9);
    assert text != "self" by {
      assert Decimals.IsDigit(text[0]);
    }
    forall k | 0 <= k < |text| ensures Digit(text[k]) {
      assert Decimals.IsDigit(text[k]);
    }
  }

  lemma RefIsNumber(ref: string)
    ensures ValidRef(ref) ==> ref == "self" || (Decimals.AllDigits(ref) && 1 <= |ref| <= 9)
  {
  }
}
