/** Delivery receipts and the translation of their message ID (smpp/handler.go, gateway/router.go). */
module Receipts {
  import opened Options
  import opened Seqs

  // ---- Characters ------------------------------------------------------------

  /** `\s` of a regular expression. */
  predicate RegexSpace(c: char) {
    c == ' ' || c == '\t' || c == '\n' || c == '\r' || c == '\U{000C}'
  }

  /** `unicode.IsSpace`. */
  predicate IsSpace(c: char) {
    || RegexSpace(c) || c == '\U{000B}' || c == '\U{0085}' || c == '\U{00A0}' || c == '\U{1680}'
    || '\U{2000}' <= c <= '\U{200A}' || c == '\U{2028}' || c == '\U{2029}' || c == '\U{202F}'
    || c == '\U{205F}' || c == '\U{3000}'
  }

  /** `strings.TrimSpace`. */
  function TrimSpace(t: string): string {
    TrimRight(TrimLeft(t))
  }

  function TrimLeft(t: string): string {
    if t == "" || !IsSpace(t[0]) then t else TrimLeft(t[1..])
  }

  function TrimRight(t: string): string {
    if t == "" || !IsSpace(t[|t| - 1]) then t else TrimRight(t[..|t| - 1])
  }

  // ---- Leftmost matches ------------------------------------------------------

  /** The first position from which the rest of the text satisfies `p`. */
  function Find(p: string -> bool, t: string): Option<nat> {
    if p(t) then Some(0)
    else if t == "" then None
    else
      var r := Find(p, t[1..]);
      if r.None? then None else Some(r.value + 1)
  }

  lemma {:induction false} FindIs(p: string -> bool, t: string, i: nat)
    requires i <= |t| && p(t[i..]) && forall j :: 0 <= j < i ==> !p(t[j..])
    ensures Find(p, t) == Some(i)
  {
    if i == 0 {
      assert t[0..] == t;
    } else {
      assert t[0..] == t;
      forall j | 0 <= j < i - 1 ensures !p(t[1..][j..]) {
        assert t[1..][j..] == t[j + 1..];
      }
      assert t[1..][i - 1..] == t[i..];
      FindIs(p, t[1..], i - 1);
    }
  }

  lemma {:induction false} FoundAt(p: string -> bool, t: string)
    ensures var r := Find(p, t);
      && (r.Some? ==> r.value <= |t| && p(t[r.value..]) && forall j :: 0 <= j < r.value ==> !p(t[j..]))
      && (r.None? ==> forall j :: 0 <= j <= |t| ==> !p(t[j..]))
  {
    assert t[0..] == t;
    if !p(t) && t != "" {
      FoundAt(p, t[1..]);
      var r := Find(p, t[1..]);
      assert forall j :: 1 <= j <= |t| ==> t[1..][j - 1..] == t[j..];
    }
  }

  /** `key` and then something that is not white space. */
  predicate KeyAt(key: string, u: string) {
    |key| < |u| && key <= u && !RegexSpace(u[|key|])
  }

  function Pattern(key: string): string -> bool {
    (u: string) => KeyAt(key, u)
  }

  /** The longest prefix without white space: `[^\\s]*`. */
  function Run(u: string): (r: string)
    ensures |r| <= |u| && r == u[..|r|] && (|r| < |u| ==> RegexSpace(u[|r|]))
    ensures forall i :: 0 <= i < |r| ==> !RegexSpace(r[i])
  {
    u[..RunLength(u)]
  }

  function RunLength(u: string): (n: nat)
    ensures n <= |u| && (forall i :: 0 <= i < n ==> !RegexSpace(u[i])) && (n < |u| ==> RegexSpace(u[n]))
  {
    if u == "" || RegexSpace(u[0]) then 0 else 1 + RunLength(u[1..])
  }

  /** The submatch of `key([^\\s]+)`. */
  function KeyValue(key: string, t: string): Option<string> {
    ValueFrom(key, t, Find(Pattern(key), t))
  }

  function ValueFrom(key: string, t: string, r: Option<nat>): Option<string> {
    if r.None? || r.value + |key| > |t| then None else Some(Run(t[r.value + |key|..]))
  }

  predicate IsLetter(c: char) {
    'A' <= c <= 'Z' || 'a' <= c <= 'z' || c == '\U{017F}' || c == '\U{212A}'
  }

  /** Equality under `(?i)`, for lower-case ASCII `k`. */
  predicate Folds(k: char, c: char) {
    c == k || (k == 's' && (c == 'S' || c == '\U{017F}')) || (k == 't' && c == 'T') || (k == 'a' && c == 'A')
  }

  /** `(?i)stat:` and at least five letters. */
  predicate StatAt(u: string) {
    && |u| >= 10
    && Folds('s', u[0]) && Folds('t', u[1]) && Folds('a', u[2]) && Folds('t', u[3]) && u[4] == ':'
    && IsLetter(u[5]) && IsLetter(u[6]) && IsLetter(u[7]) && IsLetter(u[8]) && IsLetter(u[9])
  }

  function StatPattern(): string -> bool {
    (u: string) => StatAt(u)
  }

  /** Five to seven letters, as many as there are. */
  function StatLetters(u: string): string
    requires StatAt(u)
  {
    if |u| > 10 && IsLetter(u[10]) then
      if |u| > 11 && IsLetter(u[11]) then u[5..12] else u[5..11]
    else u[5..10]
  }

  function Upper(c: char): char {
    if 'a' <= c <= 'z' then c - 'a' + 'A' else if c == '\U{017F}' then 'S' else c
  }

  /** The status, upper-cased. */
  function StatValue(t: string): Option<string> {
    var r := Find(StatPattern(), t);
    if r.None? || r.value > |t| || !StatAt(t[r.value..]) then None
    else Some(Uppercase(StatLetters(t[r.value..])))
  }

  /** `strings.ToUpper`, for letters. */
  function Uppercase(l: string): string {
    seq(|l|, i requires 0 <= i < |l| => Upper(l[i]))
  }

  // ---- Receipts --------------------------------------------------------------

  datatype Receipt = Receipt(id: string, status: string, error: string)

  function OrEmpty(r: Option<string>): string {
    if r.Some? then r.value else ""
  }

  /** `ParseDLRReceipt`. */
  function ParseReceipt(text: string): Option<Receipt> {
    var t := TrimSpace(text);
    var id := KeyValue("id:", t);
    if t == "" || id.None? then None
    else Some(Receipt(id.value, OrEmpty(StatValue(t)), OrEmpty(KeyValue("err:", t))))
  }

  function Starts(sub: string): string -> bool {
    (u: string) => sub <= u
  }

  /** `translateDLRMessageID`: the first occurrence of the field is replaced. */
  function Translate(text: string, smscId: string, gwId: string): string {
    var r := Find(Starts("id:" + smscId), text);
    if r.None? || r.value + 3 + |smscId| > |text| then text
    else text[..r.value] + "id:" + gwId + text[r.value + 3 + |smscId|..]
  }

  // ---- Where the ID is -------------------------------------------------------

  predicate Spaces(t: string) {
    forall i :: 0 <= i < |t| ==> IsSpace(t[i])
  }

  /** Not empty, and no white space at either end. */
  predicate Trimmed(t: string) {
    t != "" && !IsSpace(t[0]) && !IsSpace(t[|t| - 1])
  }

  lemma {:induction false} TrimLeftOf(lead: string, t: string)
    requires Spaces(lead) && t != "" && !IsSpace(t[0])
    ensures TrimLeft(lead + t) == t
  {
    if lead == "" {
      assert lead + t == t;
    } else {
      assert (lead + t)[1..] == lead[1..] + t;
      TrimLeftOf(lead[1..], t);
    }
  }

  lemma {:induction false} TrimRightOf(t: string, trail: string)
    requires Spaces(trail) && t != "" && !IsSpace(t[|t| - 1])
    ensures TrimRight(t + trail) == t
  {
    if trail == "" {
      assert t + trail == t;
    } else {
      var n := |trail| - 1;
      assert (t + trail)[..|t + trail| - 1] == t + trail[..n];
      TrimRightOf(t, trail[..n]);
    }
  }

  lemma TrimOf(lead: string, t: string, trail: string)
    requires Spaces(lead) && Spaces(trail) && Trimmed(t)
    ensures TrimSpace(lead + t + trail) == t
  {
    assert lead + t + trail == lead + (t + trail);
    TrimLeftOf(lead, t + trail);
    TrimRightOf(t, trail);
  }

  lemma {:induction false} TrimLeftParts(t: string) returns (lead: string)
    ensures Spaces(lead) && t == lead + TrimLeft(t) && (TrimLeft(t) != "" ==> !IsSpace(TrimLeft(t)[0]))
  {
    if t == "" || !IsSpace(t[0]) {
      lead := "";
    } else {
      var l := TrimLeftParts(t[1..]);
      lead := [t[0]] + l;
      Assoc([t[0]], l, TrimLeft(t));
      assert t == [t[0]] + t[1..];
    }
  }

  lemma {:induction false} TrimRightParts(t: string) returns (trail: string)
    ensures Spaces(trail) && t == TrimRight(t) + trail && (TrimRight(t) != "" ==> !IsSpace(TrimRight(t)[|TrimRight(t)| - 1]))
  {
    if t == "" || !IsSpace(t[|t| - 1]) {
      trail := "";
    } else {
      var l := TrimRightParts(t[..|t| - 1]);
      trail := l + [t[|t| - 1]];
      Assoc(TrimRight(t), l, [t[|t| - 1]]);
      assert t == t[..|t| - 1] + [t[|t| - 1]];
    }
  }

  lemma TrimParts(text: string) returns (lead: string, trail: string)
    requires TrimSpace(text) != ""
    ensures Spaces(lead) && Spaces(trail) && Trimmed(TrimSpace(text)) && text == lead + TrimSpace(text) + trail
  {
    lead := TrimLeftParts(text);
    trail := TrimRightParts(TrimLeft(text));
    FirstOf(TrimSpace(text), trail, TrimLeft(text));
    Assoc(lead, TrimSpace(text), trail);
  }

  lemma FirstOf(t: string, trail: string, u: string)
    requires t != "" && u == t + trail
    ensures u[0] == t[0]
  {
  }

  predicate NoRegexSpace(id: string) {
    forall i :: 0 <= i < |id| ==> !RegexSpace(id[i])
  }

  /** The end of the text, or white space. */
  predicate Ends(b: string) {
    b == "" || RegexSpace(b[0])
  }

  /** A text whose ID field comes after `a` and before `b`. */
  function WithId(a: string, id: string, b: string): string {
    a + "id:" + id + b
  }

  /** Whether the ID pattern matches inside `a` is decided by `a` and the key that follows it. */
  lemma OnlyPrefixDecides(a: string, id: string, b: string, id': string, b': string, j: nat)
    requires j < |a|
    ensures KeyAt("id:", WithId(a, id, b)[j..]) == KeyAt("id:", WithId(a, id', b')[j..])
  {
    var x, u, v := a + "id:", WithId(a, id, b), WithId(a, id', b');
    assert forall i :: 0 <= i < |x| ==> u[i] == x[i] && v[i] == x[i];
    assert u[j..][..3] == v[j..][..3] && u[j..][3] == v[j..][3];
  }

  /** `a` ends where the leftmost ID field starts. */
  ghost predicate Leftmost(a: string, id: string, b: string) {
    forall j :: 0 <= j < |a| ==> !KeyAt("id:", WithId(a, id, b)[j..])
  }

  lemma LeftmostFound(a: string, id: string, b: string)
    requires id != "" && NoRegexSpace(id) && Ends(b) && Leftmost(a, id, b)
    ensures KeyValue("id:", WithId(a, id, b)) == Some(id)
  {
    var t := WithId(a, id, b);
    assert t[|a|..] == "id:" + id + b;
    assert t[|a|..][3] == id[0];
    FindIs(Pattern("id:"), t, |a|);
    assert t[|a| + 3..] == id + b;
    RunOf(id, b);
  }

  lemma RunIs(u: string, n: nat)
    requires n <= |u| && (forall i :: 0 <= i < n ==> !RegexSpace(u[i])) && (n < |u| ==> RegexSpace(u[n]))
    ensures Run(u) == u[..n]
  {
  }

  lemma RunOf(id: string, b: string)
    requires NoRegexSpace(id) && Ends(b)
    ensures Run(id + b) == id
  {
    RunIs(id + b, |id|);
  }

  /** What stands before the ID key of a trimmed receipt. */
  function BeforeId(t: string): string {
    var p := Find(Pattern("id:"), t);
    if p.None? || p.value + 3 > |t| then "" else t[..p.value]
  }

  /** What stands after its ID. */
  function AfterId(t: string): string {
    var p := Find(Pattern("id:"), t);
    if p.None? || p.value + 3 > |t| then "" else AfterRun(t[p.value + 3..])
  }

  function AfterRun(u: string): string {
    u[|Run(u)|..]
  }

  lemma IdParts(t: string, id: string)
    requires KeyValue("id:", t) == Some(id)
    ensures t == WithId(BeforeId(t), id, AfterId(t))
    ensures id != "" && NoRegexSpace(id) && Ends(AfterId(t)) && Leftmost(BeforeId(t), id, AfterId(t))
  {
    FoundAt(Pattern("id:"), t);
    var p := Find(Pattern("id:"), t).value;
    CutAtKey(t, p, id, AfterId(t));
    assert forall j :: 0 <= j < p ==> !Pattern("id:")(t[j..]);
  }

  lemma CutAtKey(t: string, p: nat, id: string, b: string)
    requires p + 3 <= |t| && KeyAt("id:", t[p..]) && id == Run(t[p + 3..]) && b == t[p + 3 + |id|..]
    ensures t == WithId(t[..p], id, b) && id != "" && Ends(b)
  {
    assert t[p..][3] == t[p + 3..][0];
    assert t[p..p + 3] == t[p..][..3] == "id:";
    assert t[p + 3..] == id + b;
    assert |id| < |t[p + 3..]| ==> b[0] == t[p + 3..][|id|];
    assert t == t[..p] + t[p..p + 3] + t[p + 3..];
  }

  /** The field that translation replaces is the one that was parsed. */
  lemma TranslateHits(lead: string, a: string, id: string, b: string, trail: string, gwId: string)
    requires Spaces(lead) && id != "" && NoRegexSpace(id) && Leftmost(a, id, b)
    ensures Translate(lead + WithId(a, id, b) + trail, id, gwId) == lead + WithId(a, gwId, b) + trail
  {
    var t := WithId(a, id, b);
    var text, i := lead + t + trail, |lead| + |a|;
    AroundId(lead, a, id, b, trail);
    forall j | 0 <= j < i ensures !Starts("id:" + id)(text[j..]) {
      NotEarlier(lead, a, id, b, trail, j);
    }
    FindIs(Starts("id:" + id), text, i);
    AroundId(lead, a, gwId, b, trail);
  }

  lemma AroundId(lead: string, a: string, id: string, b: string, trail: string)
    ensures var text, i := lead + WithId(a, id, b) + trail, |lead| + |a|;
      && text[i..] == "id:" + id + (b + trail) && text[i + 3 + |id|..] == b + trail && text[..i] == lead + a
      && text == (lead + a) + ("id:" + id) + (b + trail)
  {
  }

  lemma NotEarlier(lead: string, a: string, id: string, b: string, trail: string, j: nat)
    requires Spaces(lead) && id != "" && NoRegexSpace(id) && Leftmost(a, id, b) && j < |lead| + |a|
    ensures !("id:" + id <= (lead + WithId(a, id, b) + trail)[j..])
  {
    var t := WithId(a, id, b);
    var text := lead + t + trail;
    var u := text[j..];
    if j < |lead| {
      assert u[0] == lead[j] && ("id:" + id)[0] == 'i';
    } else {
      var v := t[j - |lead|..];
      assert v[..3] == u[..3] && v[3] == u[3];
      assert !KeyAt("id:", v);
      assert ("id:" + id)[..3] == "id:" && ("id:" + id)[3] == id[0];
    }
  }

  // ---- The rest of the receipt -----------------------------------------------

  function OrElse(x: Option<string>, y: Option<string>): Option<string> {
    if x.Some? then x else y
  }

  lemma DropFirst(x: string, y: string, i: nat)
    requires i <= |y|
    ensures (x + y)[|x| + i..] == y[i..]
  {
  }

  /** No match that starts in `x` depends on `y`. */
  ghost predicate Local(p: string -> bool, x: string, y: string) {
    forall j :: 0 <= j < |x| ==> p((x + y)[j..]) == p(x[j..])
  }

  lemma FindInFirst(p: string -> bool, x: string, y: string, i: nat)
    requires !p("") && Local(p, x, y) && Find(p, x) == Some(i)
    ensures i < |x| && Find(p, x + y) == Some(i)
  {
    FoundAt(p, x);
    assert x[|x|..] == "";
    FindIs(p, x + y, i);
  }

  /** No match starts among the first `n` positions. */
  ghost predicate Misses(p: string -> bool, t: string, n: nat) {
    forall j :: 0 <= j < n && j <= |t| ==> !p(t[j..])
  }

  lemma MissesAcross(p: string -> bool, x: string, y: string, i: nat)
    requires Local(p, x, y) && Misses(p, x, |x|) && Misses(p, y, i) && i <= |y|
    ensures Misses(p, x + y, |x| + i)
  {
    forall j | 0 <= j < |x| + i ensures !p((x + y)[j..]) {
      if j < |x| {
        assert !p(x[j..]);
      } else {
        DropFirst(x, y, j - |x|);
        assert !p(y[j - |x|..]);
      }
    }
  }

  lemma FindInSecond(p: string -> bool, x: string, y: string, i: nat)
    requires Local(p, x, y) && Find(p, x).None? && Find(p, y) == Some(i)
    ensures i <= |y| && Find(p, x + y) == Some(|x| + i)
  {
    assert Misses(p, x, |x|) by {
      FoundAt(p, x);
    }
    assert i <= |y| && Misses(p, y, i) && p(y[i..]) by {
      FoundAt(p, y);
    }
    DropFirst(x, y, i);
    MissesAcross(p, x, y, i);
    FindIs(p, x + y, |x| + i);
  }

  lemma FindNowhere(p: string -> bool, x: string, y: string)
    requires Local(p, x, y) && Find(p, x).None? && Find(p, y).None?
    ensures Find(p, x + y).None?
  {
    assert Misses(p, x, |x|) by {
      FoundAt(p, x);
    }
    assert Misses(p, y, |y| + 1) by {
      FoundAt(p, y);
    }
    MissesAcross(p, x, y, |y|);
    DropFirst(x, y, |y|);
    FoundAt(p, x + y);
  }

  /** A match never reaches from `x` into `y`: then the first match is in `x`, or it is in `y`. */
  lemma FindSplit(p: string -> bool, x: string, y: string)
    requires !p("") && Local(p, x, y)
    ensures Find(p, x + y) ==
            if Find(p, x).Some? then Find(p, x)
            else if Find(p, y).Some? then Some(|x| + Find(p, y).value) else None
    ensures Find(p, x).Some? ==> Find(p, x).value < |x|
  {
    if Find(p, x).Some? {
      FindInFirst(p, x, y, Find(p, x).value);
    } else if Find(p, y).Some? {
      FindInSecond(p, x, y, Find(p, y).value);
    } else {
      FindNowhere(p, x, y);
    }
  }

  /** The end of the ID key: no status field contains it. */
  predicate EndsInKey(x: string) {
    |x| >= 3 && x[|x| - 3] == 'i' && x[|x| - 2] == 'd' && x[|x| - 1] == ':'
  }

  lemma StatWithin(x: string, y: string, j: nat)
    requires j < |x| && (EndsInKey(x) || Ends(y))
    ensures StatAt((x + y)[j..]) == StatAt(x[j..])
    ensures StatAt(x[j..]) ==> StatLetters((x + y)[j..]) == StatLetters(x[j..])
  {
    var u, v := (x + y)[j..], x[j..];
    assert forall i :: 0 <= i < |v| ==> u[i] == v[i];
    assert |v| >= 1 && EndsInKey(x) ==> v[|v| - 1] == ':';
    assert |v| >= 2 && EndsInKey(x) ==> v[|v| - 2] == 'd';
    assert |u| > |v| ==> u[|v|] == y[0];
    if StatAt(v) {
      assert |v| >= 12 ==> u[5..12] == v[5..12];
    }
  }

  lemma StatSplit(x: string, y: string)
    requires EndsInKey(x) || Ends(y)
    ensures StatValue(x + y) == OrElse(StatValue(x), StatValue(y))
  {
    forall j | 0 <= j < |x| ensures StatPattern()((x + y)[j..]) == StatPattern()(x[j..]) {
      StatWithin(x, y, j);
    }
    FindSplit(StatPattern(), x, y);
    if Find(StatPattern(), x).Some? {
      StatInFirst(x, y, Find(StatPattern(), x).value);
    } else if Find(StatPattern(), y).Some? {
      StatInSecond(x, y, Find(StatPattern(), y).value);
    }
  }

  lemma StatInFirst(x: string, y: string, i: nat)
    requires EndsInKey(x) || Ends(y)
    requires Find(StatPattern(), x) == Some(i) && Find(StatPattern(), x + y) == Some(i) && i < |x|
    ensures StatValue(x + y) == StatValue(x) && StatValue(x).Some?
  {
    FoundAt(StatPattern(), x);
    StatWithin(x, y, i);
  }

  lemma StatInSecond(x: string, y: string, i: nat)
    requires Find(StatPattern(), x).None? && Find(StatPattern(), y) == Some(i)
    requires Find(StatPattern(), x + y) == Some(|x| + i)
    ensures StatValue(x + y) == StatValue(y) && StatValue(x).None?
  {
    FoundAt(StatPattern(), y);
    DropFirst(x, y, i);
  }

  lemma ErrorWithin(x: string, y: string, j: nat)
    requires j < |x| && (EndsInKey(x) || Ends(y))
    ensures KeyAt("err:", (x + y)[j..]) == KeyAt("err:", x[j..])
  {
    var u, v := (x + y)[j..], x[j..];
    assert forall i :: 0 <= i < |v| ==> u[i] == v[i];
    assert |u| > |v| ==> u[|v|] == y[0];
    assert EndsInKey(x) ==> v[|v| - 1] == ':' && (|v| >= 2 ==> v[|v| - 2] == 'd');
    assert |v| > 4 ==> u[..4] == v[..4];
    assert KeyAt("err:", u) ==> u[0] == 'e' && u[1] == 'r' && u[2] == 'r' && u[3] == ':' by {
      assert KeyAt("err:", u) ==> u[..4] == "err:";
    }
  }

  lemma RunConcat(u: string, y: string)
    ensures Run(u + y) == if NoRegexSpace(u) then u + Run(y) else Run(u)
  {
    if NoRegexSpace(u) {
      var n := RunLength(y);
      RunIs(u + y, |u| + n);
      assert (u + y)[..|u| + n] == u + y[..n];
    } else {
      var n := RunLength(u);
      RunIs(u + y, n);
      assert (u + y)[..n] == u[..n];
    }
  }

  /** The error field before the ID is not closed by white space: its value runs into the ID field. */
  predicate OpenError(x: string) {
    OpenFrom("err:", x, Find(Pattern("err:"), x))
  }

  predicate OpenFrom(key: string, x: string, r: Option<nat>) {
    r.Some? && r.value + |key| <= |x| && NoRegexSpace(x[r.value + |key|..])
  }

  lemma ErrorFind(x: string, y: string)
    requires EndsInKey(x) || Ends(y)
    ensures Find(Pattern("err:"), x + y) ==
            if Find(Pattern("err:"), x).Some? then Find(Pattern("err:"), x)
            else if Find(Pattern("err:"), y).Some? then Some(|x| + Find(Pattern("err:"), y).value) else None
    ensures Find(Pattern("err:"), x).Some? ==> Find(Pattern("err:"), x).value + 4 < |x|
    ensures Find(Pattern("err:"), y).Some? ==> Find(Pattern("err:"), y).value + 4 < |y|
  {
    forall j | 0 <= j < |x| ensures Pattern("err:")((x + y)[j..]) == Pattern("err:")(x[j..]) {
      ErrorWithin(x, y, j);
    }
    FindSplit(Pattern("err:"), x, y);
    FoundAt(Pattern("err:"), x);
    FoundAt(Pattern("err:"), y);
  }

  lemma ErrorSplit(x: string, y: string)
    requires EndsInKey(x) || Ends(y)
    ensures KeyValue("err:", x + y) ==
            if OpenError(x) then Some(KeyValue("err:", x).value + Run(y))
            else OrElse(KeyValue("err:", x), KeyValue("err:", y))
  {
    ErrorFind(x, y);
    ValueSplit("err:", x, y, Find(Pattern("err:"), x), Find(Pattern("err:"), y));
  }

  /** The value of a key found at `r` in `x`, or else at `q` in `y`. */
  lemma ValueSplit(key: string, x: string, y: string, r: Option<nat>, q: Option<nat>)
    requires (r.Some? ==> r.value + |key| < |x|) && (q.Some? ==> q.value + |key| < |y|)
    ensures ValueFrom(key, x + y, if r.Some? then r else if q.Some? then Some(|x| + q.value) else None) ==
            if OpenFrom(key, x, r) then Some(ValueFrom(key, x, r).value + Run(y))
            else OrElse(ValueFrom(key, x, r), ValueFrom(key, y, q))
  {
    if r.Some? {
      ValueInFirst(key, x, y, r.value, r.value + |key|);
    } else {
      ValueInSecond(key, x, y, q);
    }
  }

  lemma ValueInFirst(key: string, x: string, y: string, i: nat, n: nat)
    requires n == i + |key| < |x|
    ensures ValueFrom(key, x + y, Some(i)) == Some(if NoRegexSpace(x[n..]) then Run(x[n..]) + Run(y) else Run(x[n..]))
  {
    RunAcross(x, y, n);
  }

  lemma ValueInSecond(key: string, x: string, y: string, q: Option<nat>)
    requires q.Some? ==> q.value + |key| < |y|
    ensures ValueFrom(key, x + y, if q.Some? then Some(|x| + q.value) else None) == ValueFrom(key, y, q)
  {
    if q.Some? {
      DropFirst(x, y, q.value + |key|);
    }
  }

  lemma RunAcross(x: string, y: string, i: nat)
    requires i <= |x|
    ensures Run((x + y)[i..]) == if NoRegexSpace(x[i..]) then Run(x[i..]) + Run(y) else Run(x[i..])
  {
    var u := x[i..];
    assert (x + y)[i..] == u + y;
    RunConcat(u, y);
    RunConcat(u, "");
    assert u + "" == u;
  }

  predicate NoColon(id: string) {
    forall i :: 0 <= i < |id| ==> id[i] != ':'
  }

  lemma NoColonNoField(id: string)
    requires NoColon(id)
    ensures StatValue(id).None? && KeyValue("err:", id).None?
  {
    FoundAt(StatPattern(), id);
    FoundAt(Pattern("err:"), id);
    forall u | KeyAt("err:", u) ensures u[3] == ':' {
      assert u[3] == "err:"[3];
    }
  }

  /** The status of a text with an ID field is looked for before it, in it, and after it. */
  lemma StatusOf(a: string, id: string, b: string)
    requires Ends(b)
    ensures StatValue(WithId(a, id, b)) == OrElse(StatValue(a + "id:"), OrElse(StatValue(id), StatValue(b)))
  {
    assert WithId(a, id, b) == (a + "id:") + (id + b);
    StatSplit(a + "id:", id + b);
    StatSplit(id, b);
  }

  lemma ErrorOf(a: string, id: string, b: string)
    requires NoRegexSpace(id) && Ends(b)
    ensures var x := a + "id:";
      KeyValue("err:", WithId(a, id, b)) ==
        if OpenError(x) then Some(KeyValue("err:", x).value + id)
        else OrElse(KeyValue("err:", x), if OpenError(id) then KeyValue("err:", id) else OrElse(KeyValue("err:", id), KeyValue("err:", b)))
  {
    assert WithId(a, id, b) == (a + "id:") + (id + b);
    ErrorSplit(a + "id:", id + b);
    ErrorSplit(id, b);
    RunOf(id, b);
    RunOf("", b);
    assert "" + b == b;
    if OpenError(id) {
      assert KeyValue("err:", id).value + "" == KeyValue("err:", id).value;
    }
  }

  // ---- Translation -----------------------------------------------------------

  /** IDs that the gateway gives out: "GW-" and digits. */
  predicate PlainId(id: string) {
    id != "" && NoColon(id) && forall i :: 0 <= i < |id| ==> !IsSpace(id[i])
  }

  lemma TrimmedWithId(a: string, id: string, b: string, gwId: string)
    requires Trimmed(WithId(a, id, b)) && PlainId(gwId)
    ensures Trimmed(WithId(a, gwId, b))
  {
    var t, t' := WithId(a, id, b), WithId(a, gwId, b);
    assert t[0] == if a == "" then 'i' else a[0];
    assert t'[0] == t[0];
    if b == "" {
      assert t'[|t'| - 1] == gwId[|gwId| - 1];
    } else {
      assert t'[|t'| - 1] == b[|b| - 1] == t[|t| - 1];
    }
  }

  /**
   * Translation hits the field that was parsed, for every receipt that parses: the new receipt
   * has the gateway's ID and nothing else of the text changes.
   */
  lemma TranslatedReceipt(text: string, gwId: string) returns (lead: string, trail: string)
    requires ParseReceipt(text).Some? && PlainId(gwId)
    ensures var id, t := ParseReceipt(text).value.id, TrimSpace(text);
      var t' := WithId(BeforeId(t), gwId, AfterId(t));
      && t == WithId(BeforeId(t), id, AfterId(t)) && Ends(AfterId(t)) && NoRegexSpace(id)
      && text == lead + t + trail
      && Translate(text, id, gwId) == lead + t' + trail
      && ParseReceipt(Translate(text, id, gwId)) == Some(Receipt(gwId, OrEmpty(StatValue(t')), OrEmpty(KeyValue("err:", t'))))
  {
    lead, trail := TrimParts(text);
    var t, id := TrimSpace(text), ParseReceipt(text).value.id;
    IdParts(t, id);
    TranslatedParse(lead, BeforeId(t), id, AfterId(t), trail, gwId);
  }

  lemma TranslatedParse(lead: string, a: string, id: string, b: string, trail: string, gwId: string)
    requires Spaces(lead) && Spaces(trail) && Trimmed(WithId(a, id, b)) && PlainId(gwId)
    requires id != "" && NoRegexSpace(id) && Ends(b) && Leftmost(a, id, b)
    ensures var t' := WithId(a, gwId, b);
      && Translate(lead + WithId(a, id, b) + trail, id, gwId) == lead + t' + trail
      && ParseReceipt(lead + t' + trail) == Some(Receipt(gwId, OrEmpty(StatValue(t')), OrEmpty(KeyValue("err:", t'))))
  {
    TranslateHits(lead, a, id, b, trail, gwId);
    TrimmedWithId(a, id, b, gwId);
    TrimOf(lead, WithId(a, gwId, b), trail);
    forall j | 0 <= j < |a| ensures !KeyAt("id:", WithId(a, gwId, b)[j..]) {
      OnlyPrefixDecides(a, id, b, gwId, b, j);
    }
    LeftmostFound(a, gwId, b);
  }

  /** The status survives exactly when it was not read out of the old ID (or reads the same after it). */
  lemma StatusFieldKept(a: string, id: string, b: string, gwId: string)
    requires Ends(b) && PlainId(gwId)
    ensures StatValue(WithId(a, gwId, b)) == StatValue(WithId(a, id, b)) <==>
            StatValue(a + "id:").Some? || StatValue(id).None? || StatValue(id) == StatValue(b)
  {
    StatusOf(a, id, b);
    StatusOf(a, gwId, b);
    NoColonNoField(gwId);
  }

  /** The error survives exactly when it neither runs into the ID field nor was read out of the old ID. */
  lemma ErrorFieldKept(a: string, id: string, b: string, gwId: string)
    requires NoRegexSpace(id) && Ends(b) && PlainId(gwId)
    ensures KeyValue("err:", WithId(a, gwId, b)) == KeyValue("err:", WithId(a, id, b)) <==>
            if OpenError(a + "id:") then id == gwId
            else KeyValue("err:", a + "id:").Some? || KeyValue("err:", id).None? || KeyValue("err:", id) == KeyValue("err:", b)
  {
    ErrorOf(a, id, b);
    ErrorOf(a, gwId, b);
    NoColonNoField(gwId);
    if OpenError(a + "id:") && id != gwId {
      SameHeadDiffers(KeyValue("err:", a + "id:").value, id, gwId);
    }
  }

  lemma SameHeadDiffers(v: string, x: string, y: string)
    ensures v + x == v + y ==> x == y
  {
    if v + x == v + y {
      assert x == (v + x)[|v|..] == (v + y)[|v|..] == y;
    }
  }

  /** A field that is found is not empty. */
  lemma FoundNotEmpty(t: string)
    ensures StatValue(t).Some? ==> StatValue(t).value != ""
    ensures KeyValue("err:", t).Some? ==> KeyValue("err:", t).value != ""
  {
    FoundAt(Pattern("err:"), t);
    var r := Find(Pattern("err:"), t);
    if r.Some? {
      assert t[r.value..][4] == t[r.value + 4..][0];
    }
  }

  /**
   * Status: the translated receipt has the status of the receipt exactly when that was read before
   * the ID, or the old ID holds no status field, or the text after it reads the same.
   */
  lemma StatusKept(text: string, gwId: string)
    requires ParseReceipt(text).Some? && PlainId(gwId)
    ensures var id, t := ParseReceipt(text).value.id, TrimSpace(text);
      var r' := ParseReceipt(Translate(text, id, gwId));
      && r'.Some?
      && (r'.value.status == ParseReceipt(text).value.status <==>
            StatValue(BeforeId(t) + "id:").Some? || StatValue(id).None? || StatValue(id) == StatValue(AfterId(t)))
  {
    var id, t := ParseReceipt(text).value.id, TrimSpace(text);
    var lead, trail := TranslatedReceipt(text, gwId);
    StatusFieldKept(BeforeId(t), id, AfterId(t), gwId);
    FoundNotEmpty(t);
    FoundNotEmpty(WithId(BeforeId(t), gwId, AfterId(t)));
  }

  /**
   * Error: it is kept exactly when it does not run into the ID (or the IDs are equal), and it was read
   * before the ID, or the old ID holds no error field, or the text after it reads the same.
   */
  lemma ErrorKept(text: string, gwId: string)
    requires ParseReceipt(text).Some? && PlainId(gwId)
    ensures var id, t := ParseReceipt(text).value.id, TrimSpace(text);
      var r' := ParseReceipt(Translate(text, id, gwId));
      && r'.Some?
      && (r'.value.error == ParseReceipt(text).value.error <==>
            if OpenError(BeforeId(t) + "id:") then id == gwId
            else || KeyValue("err:", BeforeId(t) + "id:").Some? || KeyValue("err:", id).None?
                 || KeyValue("err:", id) == KeyValue("err:", AfterId(t)))
  {
    var id, t := ParseReceipt(text).value.id, TrimSpace(text);
    var lead, trail := TranslatedReceipt(text, gwId);
    ErrorFieldKept(BeforeId(t), id, AfterId(t), gwId);
    FoundNotEmpty(t);
    FoundNotEmpty(WithId(BeforeId(t), gwId, AfterId(t)));
  }

  // ---- Receipts that change --------------------------------------------------

  lemma TooShortForStatus(t: string)
    requires |t| < 10
    ensures StatValue(t).None?
  {
    FoundAt(StatPattern(), t);
  }

  /** The parts of a trimmed receipt are found again. */
  lemma PartsFound(a: string, id: string, b: string)
    requires id != "" && NoRegexSpace(id) && Ends(b) && Leftmost(a, id, b)
    ensures var t := WithId(a, id, b); KeyValue("id:", t) == Some(id) && BeforeId(t) == a && AfterId(t) == b
  {
    LeftmostFound(a, id, b);
    KeyIsAt(a, id, b);
    Slices(a, id, b);
    RunOf(id, b);
    assert (id + b)[|id|..] == b;
  }

  lemma Slices(a: string, id: string, b: string)
    ensures var t := WithId(a, id, b); t[..|a|] == a && t[|a| + 3..] == id + b
  {
  }

  lemma KeyIsAt(a: string, id: string, b: string)
    requires id != "" && NoRegexSpace(id) && Leftmost(a, id, b)
    ensures Find(Pattern("id:"), WithId(a, id, b)) == Some(|a|)
  {
    var t := WithId(a, id, b);
    assert t[|a|..] == "id:" + id + b;
    assert t[|a|..][3] == id[0];
    FindIs(Pattern("id:"), t, |a|);
  }

  /** A trimmed text parses to the fields it is made of. */
  lemma TrimmedParses(a: string, id: string, b: string)
    requires Trimmed(WithId(a, id, b)) && id != "" && NoRegexSpace(id) && Ends(b) && Leftmost(a, id, b)
    ensures TrimSpace(WithId(a, id, b)) == WithId(a, id, b)
    ensures ParseReceipt(WithId(a, id, b)).Some? && ParseReceipt(WithId(a, id, b)).value.id == id
  {
    var t := WithId(a, id, b);
    TrimOf("", t, "");
    assert "" + t + "" == t;
    LeftmostFound(a, id, b);
  }

  /** "id:stat:AAAAA": a downstream ID that looks like a status field takes the status with it. */
  lemma StatusCanChange(gwId: string)
    requires PlainId(gwId)
    ensures ParseReceipt("id:stat:AAAAA").Some? && ParseReceipt("id:stat:AAAAA").value.id == "stat:AAAAA"
    ensures var r' := ParseReceipt(Translate("id:stat:AAAAA", "stat:AAAAA", gwId));
            r'.Some? && r'.value.status != ParseReceipt("id:stat:AAAAA").value.status
  {
    assert WithId("", "stat:AAAAA", "") == "id:stat:AAAAA";
    StatusTaken("stat:AAAAA", gwId);
  }

  lemma StatusTaken(id: string, gwId: string)
    requires StatAt(id) && NoRegexSpace(id) && !IsSpace(id[|id| - 1]) && PlainId(gwId)
    ensures var text := WithId("", id, "");
            && ParseReceipt(text).Some? && ParseReceipt(text).value.id == id
            && ParseReceipt(Translate(text, id, gwId)).Some?
            && ParseReceipt(Translate(text, id, gwId)).value.status != ParseReceipt(text).value.status
  {
    var text := WithId("", id, "");
    assert text[0] == 'i' && text[|text| - 1] == id[|id| - 1];
    TrimmedParses("", id, "");
    PartsFound("", id, "");
    TooShortForStatus("" + "id:");
    TooShortForStatus("");
    assert id[0..] == id;
    FindIs(StatPattern(), id, 0);
    StatusKept(text, gwId);
  }

  /** "err:id:7": an error field that runs into the ID changes with it. */
  lemma ErrorCanChange(gwId: string)
    requires PlainId(gwId) && gwId != "7"
    ensures ParseReceipt("err:id:7").Some? && ParseReceipt("err:id:7").value.id == "7"
    ensures var r' := ParseReceipt(Translate("err:id:7", "7", gwId));
            r'.Some? && r'.value.error != ParseReceipt("err:id:7").value.error
  {
    var text := "err:id:7";
    assert WithId("err:", "7", "") == text;
    forall j | 0 <= j < 4 ensures !KeyAt("id:", text[j..]) {
      assert text[j..][0] == text[j] && "id:"[0] == 'i';
    }
    TrimmedParses("err:", "7", "");
    PartsFound("err:", "7", "");
    OpenAtKey();
    ErrorKept(text, gwId);
  }

  lemma OpenAtKey()
    ensures OpenError("err:" + "id:")
  {
    var t := "err:" + "id:";
    assert t == "err:id:" && t[0..] == t && t[..4] == "err:" && t[4..] == "id:";
    assert KeyAt("err:", t);
    FindIs(Pattern("err:"), t, 0);
  }

  // ---- What the fields mean --------------------------------------------------

  /** "stat:" in any case. */
  predicate StatKey(key: string) {
    |key| == 5 && Folds('s', key[0]) && Folds('t', key[1]) && Folds('a', key[2]) && Folds('t', key[3]) && key[4] == ':'
  }

  predicate Letters(l: string) {
    forall i :: 0 <= i < |l| ==> IsLetter(l[i])
  }

  predicate Capitals(l: string) {
    forall i :: 0 <= i < |l| ==> 'A' <= l[i] <= 'Z'
  }

  /** Five to seven letters, and no eighth that would have counted. */
  predicate StatusText(l: string, b: string) {
    5 <= |l| <= 7 && Letters(l) && (|l| == 7 || b == "" || !IsLetter(b[0]))
  }

  /** No status field starts in the first `n` characters. */
  ghost predicate NoStatusIn(t: string, n: nat) {
    forall j :: 0 <= j < n && j <= |t| ==> !StatAt(t[j..])
  }

  lemma StatusHere(key: string, l: string, b: string)
    requires StatKey(key) && StatusText(l, b)
    ensures StatAt(key + l + b) && StatLetters(key + l + b) == l
  {
    var u := key + l + b;
    assert forall i :: 0 <= i < |l| ==> u[5 + i] == l[i];
    assert |u| > 5 + |l| ==> u[5 + |l|] == b[0];
    assert u[5..5 + |l|] == l;
  }

  /** The status read is the letters of the first status field, in capitals. */
  lemma StatusRead(a: string, key: string, l: string, b: string)
    requires StatKey(key) && StatusText(l, b) && NoStatusIn(a + (key + l + b), |a|)
    ensures StatValue(a + (key + l + b)) == Some(Uppercase(l))
  {
    var u := key + l + b;
    StatusHere(key, l, b);
    DropFirst(a, u, 0);
    assert u[0..] == u;
    FindIs(StatPattern(), a + u, |a|);
  }

  /** Small letters of a status are raised to the capitals 32 below them. */
  lemma SmallRaised(l: string, i: nat)
    requires i < |l| && 'a' <= l[i] <= 'z'
    ensures Uppercase(l)[i] as int == l[i] as int - 32
  {
  }

  lemma CapitalsStay(l: string)
    requires Capitals(l)
    ensures Uppercase(l) == l && Letters(l)
  {
  }

  /** Status of a receipt, in terms of its text. */
  lemma StatusParsed(text: string, a: string, key: string, l: string, b: string)
    requires ParseReceipt(text).Some? && TrimSpace(text) == a + (key + l + b)
    requires StatKey(key) && StatusText(l, b) && NoStatusIn(TrimSpace(text), |a|)
    ensures ParseReceipt(text).value.status == Uppercase(l)
    ensures Capitals(l) ==> ParseReceipt(text).value.status == l
  {
    StatusRead(a, key, l, b);
    if Capitals(l) {
      CapitalsStay(l);
    }
  }

  /** A receipt has no status exactly when no status field starts anywhere in it. */
  lemma StatusAbsent(text: string)
    requires ParseReceipt(text).Some?
    ensures ParseReceipt(text).value.status == "" <==> NoStatusIn(TrimSpace(text), |TrimSpace(text)| + 1)
  {
    var t := TrimSpace(text);
    FoundAt(StatPattern(), t);
    FoundNotEmpty(t);
  }

  /** No error field starts in the first `n` characters. */
  ghost predicate NoErrorIn(t: string, n: nat) {
    forall j :: 0 <= j < n && j <= |t| ==> !KeyAt("err:", t[j..])
  }

  /** The error read is the run of non-space characters after the first error key that has one. */
  lemma ErrorRead(a: string, v: string, b: string)
    requires v != "" && NoRegexSpace(v) && Ends(b) && NoErrorIn(a + ("err:" + v + b), |a|)
    ensures KeyValue("err:", a + ("err:" + v + b)) == Some(v)
  {
    var u := "err:" + v + b;
    DropFirst(a, u, 0);
    assert u[0..] == u && u[..4] == "err:" && u[4] == v[0];
    assert KeyAt("err:", u);
    FindIs(Pattern("err:"), a + u, |a|);
    DropFirst(a, u, 4);
    assert u[4..] == v + b;
    RunOf(v, b);
  }

  /** Error of a receipt, in terms of its text. */
  lemma ErrorParsed(text: string, a: string, v: string, b: string)
    requires ParseReceipt(text).Some? && TrimSpace(text) == a + ("err:" + v + b)
    requires v != "" && NoRegexSpace(v) && Ends(b) && NoErrorIn(TrimSpace(text), |a|)
    ensures ParseReceipt(text).value.error == v
  {
    ErrorRead(a, v, b);
  }

  lemma ErrorAbsent(text: string)
    requires ParseReceipt(text).Some?
    ensures ParseReceipt(text).value.error == "" <==> NoErrorIn(TrimSpace(text), |TrimSpace(text)| + 1)
  {
    var t := TrimSpace(text);
    FoundAt(Pattern("err:"), t);
    FoundNotEmpty(t);
  }

  // ---- An ordinary receipt ---------------------------------------------------

  /** Characters with which neither a status nor an error field starts. */
  predicate Inert(t: string) {
    forall i :: 0 <= i < |t| ==> t[i] != 's' && t[i] != 'S' && t[i] != '\U{017F}' && t[i] != 'e'
  }

  lemma InertNoStatus(a: string, u: string)
    requires Inert(a)
    ensures NoStatusIn(a + u, |a|)
  {
    forall j | 0 <= j < |a| ensures !StatAt((a + u)[j..]) {
      assert (a + u)[j..][0] == a[j];
    }
  }

  /** No error field starts where there is no lower-case "e". */
  lemma NoLowerE(a: string, u: string)
    requires forall i :: 0 <= i < |a| ==> a[i] != 'e'
    ensures NoErrorIn(a + u, |a|)
  {
    forall j | 0 <= j < |a| ensures !KeyAt("err:", (a + u)[j..]) {
      assert (a + u)[j..][0] == a[j] && "err:"[0] == 'e';
    }
  }

  /** A receipt with an ID, a status and an error, in this order. */
  function Ordinary(id: string, status: string, error: string): string {
    WithId("", id, " " + ("stat:" + status + (" " + ("err:" + error + ""))))
  }

  predicate OrdinaryFields(id: string, status: string, error: string) {
    && id != "" && Inert(id) && NoRegexSpace(id)
    && 5 <= |status| <= 7 && Capitals(status)
    && error != "" && NoRegexSpace(error) && !IsSpace(error[|error| - 1])
  }

  lemma OrdinaryParses(id: string, status: string, error: string)
    requires OrdinaryFields(id, status, error)
    ensures var t := Ordinary(id, status, error);
            TrimSpace(t) == t && ParseReceipt(t).Some? && ParseReceipt(t).value.id == id
  {
    var b := " " + ("stat:" + status + (" " + ("err:" + error + "")));
    var t := WithId("", id, b);
    LastOfError(id, status, error);
    assert t[0] == 'i';
    TrimmedParses("", id, b);
  }

  lemma LastOfError(id: string, status: string, error: string)
    requires error != ""
    ensures var t := Ordinary(id, status, error); t[|t| - 1] == error[|error| - 1]
  {
  }

  lemma OrdinaryStatus(id: string, status: string, error: string)
    requires OrdinaryFields(id, status, error)
    ensures StatValue(Ordinary(id, status, error)) == Some(status)
  {
    var a, b := "id:" + id + " ", " " + ("err:" + error + "");
    assert Ordinary(id, status, error) == a + ("stat:" + status + b);
    CapitalsStay(status);
    InertNoStatus(a, "stat:" + status + b);
    StatusRead(a, "stat:", status, b);
  }

  lemma OrdinaryError(id: string, status: string, error: string)
    requires OrdinaryFields(id, status, error)
    ensures KeyValue("err:", Ordinary(id, status, error)) == Some(error)
  {
    var a := "id:" + id + " " + "stat:" + status + " ";
    assert Ordinary(id, status, error) == a + ("err:" + error + "");
    NoLowerE(a, "err:" + error + "");
    ErrorRead(a, error, "");
  }

  /** It parses to these three fields. */
  lemma OrdinaryReceipt(id: string, status: string, error: string)
    requires OrdinaryFields(id, status, error)
    ensures ParseReceipt(Ordinary(id, status, error)) == Some(Receipt(id, status, error))
  {
    OrdinaryParses(id, status, error);
    OrdinaryStatus(id, status, error);
    OrdinaryError(id, status, error);
  }

  lemma DeliveredReceipt()
    ensures ParseReceipt("id:1 stat:DELIVRD err:000") == Some(Receipt("1", "DELIVRD", "000"))
  {
    assert Ordinary("1", "DELIVRD", "000") == "id:1 stat:DELIVRD err:000";
    OrdinaryReceipt("1", "DELIVRD", "000");
  }
}
