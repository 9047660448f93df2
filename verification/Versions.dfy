/** Scanning and comparing server versions (aerospike-connection-manager/version.go). */
module Versions {
  import opened Basics
  import opened Decimals

  const DOT: byte := 46
  const MAX_INT: nat := TWO_TO_THE_63 - 1

  predicate StartsWithDigit(s: Text) {
    s != [] && IsDigit(s[0])
  }

  // ----- The regular expression -----

  /** The length of the longest run of digits in front. */
  function DigitRun(s: Text): (n: nat)
    ensures n <= |s|
  {
    if StartsWithDigit(s) then 1 + DigitRun(s[1..]) else 0
  }

  /** Up to `k` runs of digits separated by single dots; the missing ones are empty. */
  function Components(s: Text, k: nat): (cs: seq<Text>)
    requires k > 0
    ensures |cs| == k
    decreases k
  {
    var n := DigitRun(s);
    if k > 1 && |s| >= n + 2 && s[n] == DOT && IsDigit(s[n + 1])
    then [s[..n]] + Components(s[n + 1..], k - 1)
    else [s[..n]] + seq(k - 1, _ => [])
  }

  function DropToDigit(s: Text): Text {
    if s == [] || IsDigit(s[0]) then s else DropToDigit(s[1..])
  }

  function Nested(c: Text, inner: Text): Text {
    if c == [] then [] else [DOT] + c + inner
  }

  /** `FindStringSubmatch`: the leftmost match and its seven groups, or nothing if there is no digit. */
  method FindStringSubmatch(s: Text) returns (groups: seq<Text>)
    ensures groups == [] <==> DropToDigit(s) == []
    ensures groups != [] ==>
              |groups| == 8 && [groups[1], groups[3], groups[5], groups[7]] == Components(DropToDigit(s), 4)
  {
    var t := DropToDigit(s);
    if t == [] {
      return [];
    }
    var cs := Components(t, 4);
    var g6 := Nested(cs[3], []);
    var g4 := Nested(cs[2], g6);
    groups := [t, cs[0], Nested(cs[1], g4), cs[1], g4, cs[2], g6, cs[3]];
  }

  /** The group names; only the four components are named. */
  const NAMES: seq<Text> := [[], [118, 49], [], [118, 50], [], [118, 51], [], [118, 52]]

  lemma NamesAlternate(i: nat, j: nat)
    requires i < |NAMES| && 2 * j <= i <= 2 * j + 1
    ensures |NAMES[i]| > 0 <==> i == 2 * j + 1
  {
  }

  /** `strconv.Atoi` on digits with its error ignored: 0 on the empty string, saturating. */
  function Atoi(t: Text): nat {
    if Decimal(t) <= MAX_INT then Decimal(t) else MAX_INT
  }

  /** The four components, or nothing if the string has no digit. */
  function Parse(s: Text): seq<nat> {
    var t := DropToDigit(s);
    if t == [] then [] else
    var cs := Components(t, 4);
    [Atoi(cs[0]), Atoi(cs[1]), Atoi(cs[2]), Atoi(cs[3])]
  }

  method FindNamedMatches(s: Text) returns (found: seq<nat>)
    ensures found == Parse(s)
  {
    var groups := FindStringSubmatch(s);
    var results := new nat[|NAMES|];
    var j := 0;
    for i := 0 to |groups|
      invariant 2 * j <= i <= 2 * j + 1
      invariant forall n :: 0 <= n < j ==> results[n] == Atoi(groups[2 * n + 1])
    {
      NamesAlternate(i, j);
      if |NAMES[i]| > 0 {
        results[j] := Atoi(groups[i]);
        j := j + 1;
      }
    }
    found := results[..j];
    CollectedParse(s, groups, found);
  }

  lemma CollectedParse(s: Text, groups: seq<Text>, found: seq<nat>)
    requires groups == [] <==> DropToDigit(s) == []
    requires groups != [] ==>
               |groups| == 8 && [groups[1], groups[3], groups[5], groups[7]] == Components(DropToDigit(s), 4)
    requires 2 * |found| <= |groups| <= 2 * |found| + 1
    requires forall n :: 0 <= n < |found| ==> found[n] == Atoi(groups[2 * n + 1])
    ensures found == Parse(s)
  {
    if groups != [] {
      var cs := [groups[1], groups[3], groups[5], groups[7]];
      assert |found| == 4 && cs == Components(DropToDigit(s), 4);
      assert found == [Atoi(groups[1]), Atoi(groups[3]), Atoi(groups[5]), Atoi(groups[7])];
    }
  }

  // ----- Comparison -----

  datatype Status = Newer | Older | Equal

  /** Lexicographic order, the server's version first. */
  function Compare(server: seq<nat>, req: seq<nat>): Status
    requires |server| == |req|
  {
    if server == [] then Equal
    else if req[0] < server[0] then Newer
    else if req[0] > server[0] then Older
    else Compare(server[1..], req[1..])
  }

  /** Panics on a string without a digit, whose component list is empty. */
  method CmpServerVersion(sv: Text, v: Text) returns (r: Outcome<Status>)
    ensures r.Panic? <==> Parse(sv) == [] || Parse(v) == []
    ensures r.Ok? ==> r.value == Compare(Parse(sv), Parse(v))
  {
    var server := FindNamedMatches(sv);
    var req := FindNamedMatches(v);
    for i := 0 to 4
      invariant i > 0 ==> |server| == |req| == 4
      invariant |server| == |req| == 4 ==> Compare(server, req) == Compare(server[i..], req[i..])
    {
      if i >= |req| || i >= |server| {
        return Panic;
      }
      if req[i] < server[i] {
        return Ok(Newer);
      } else if req[i] > server[i] {
        return Ok(Older);
      }
    }
    r := Ok(Equal);
  }

  method ServerIsOlderThan(sv: Text, v: Text) returns (r: Outcome<bool>)
    ensures r.Panic? <==> Parse(sv) == [] || Parse(v) == []
    ensures r.Ok? ==> (r.value <==> Compare(Parse(sv), Parse(v)) == Older)
  {
    var c := CmpServerVersion(sv, v);
    r := if c.Ok? then Ok(c.value == Older) else Panic;
  }

  /** In spite of its name, true of equal versions: the complement of `ServerIsOlderThan`. */
  method ServerIsNewerThan(sv: Text, v: Text) returns (r: Outcome<bool>)
    ensures r.Panic? <==> Parse(sv) == [] || Parse(v) == []
    ensures r.Ok? ==> (r.value <==> Compare(Parse(sv), Parse(v)) != Older)
  {
    var c := CmpServerVersion(sv, v);
    r := if c.Ok? then Ok(c.value != Older) else Panic;
  }

  lemma {:induction false} CompareSwap(a: seq<nat>, b: seq<nat>)
    requires |a| == |b|
    ensures Compare(a, b) == Older <==> Compare(b, a) == Newer
    ensures Compare(a, b) == Equal <==> a == b
  {
    if a != [] {
      CompareSwap(a[1..], b[1..]);
      assert a == [a[0]] + a[1..] && b == [b[0]] + b[1..];
    }
  }

  /** The first component that differs decides: the server is newer if its own is greater. */
  lemma {:induction false} CompareFirst(a: seq<nat>, b: seq<nat>)
    requires |a| == |b|
    ensures Compare(a, b) == Newer <==> exists k :: 0 <= k < |a| && a[..k] == b[..k] && a[k] > b[k]
    ensures Compare(a, b) == Older <==> exists k :: 0 <= k < |a| && a[..k] == b[..k] && a[k] < b[k]
  {
    if a != [] {
      if a[0] == b[0] {
        CompareFirst(a[1..], b[1..]);
        forall k | 0 <= k < |a| - 1 ensures a[1..][..k] == b[1..][..k] <==> a[..k + 1] == b[..k + 1] {
          assert a[..k + 1] == [a[0]] + a[1..][..k] && b[..k + 1] == [b[0]] + b[1..][..k];
          assert a[..k + 1][1..] == a[1..][..k] && b[..k + 1][1..] == b[1..][..k];
        }
        ShiftFirst(a, b);
      } else {
        assert a[..0] == b[..0];
        forall k | 0 < k < |a| ensures a[..k] != b[..k] {
          assert a[..k][0] != b[..k][0];
        }
      }
    }
  }

  lemma ShiftFirst(a: seq<nat>, b: seq<nat>)
    requires |a| == |b| > 0 && a[0] == b[0]
    requires forall k | 0 <= k < |a| - 1 :: a[1..][..k] == b[1..][..k] <==> a[..k + 1] == b[..k + 1]
    ensures (exists k :: 0 <= k < |a| && a[..k] == b[..k] && a[k] > b[k])
            <==> exists k :: 0 <= k < |a[1..]| && a[1..][..k] == b[1..][..k] && a[1..][k] > b[1..][k]
    ensures (exists k :: 0 <= k < |a| && a[..k] == b[..k] && a[k] < b[k])
            <==> exists k :: 0 <= k < |a[1..]| && a[1..][..k] == b[1..][..k] && a[1..][k] < b[1..][k]
  {
    forall k | 0 <= k < |a| && a[..k] == b[..k] && a[k] != b[k]
      ensures k > 0 && a[1..][..k - 1] == b[1..][..k - 1] && a[1..][k - 1] == a[k] && b[1..][k - 1] == b[k]
    {
    }
    forall k | 0 <= k < |a| - 1 && a[1..][..k] == b[1..][..k]
      ensures a[..k + 1] == b[..k + 1] && a[k + 1] == a[1..][k] && b[k + 1] == b[1..][k]
    {
    }
  }

  lemma {:induction false} CompareTransitive(a: seq<nat>, b: seq<nat>, c: seq<nat>)
    requires |a| == |b| == |c|
    requires Compare(a, b) != Older && Compare(b, c) != Older
    ensures Compare(a, c) != Older
    ensures Compare(a, c) == Equal ==> Compare(a, b) == Equal && Compare(b, c) == Equal
  {
    if a != [] && a[0] == b[0] && b[0] == c[0] {
      CompareTransitive(a[1..], b[1..], c[1..]);
    }
  }

  // ----- Parsing what was printed -----

  /** The components in decimal, separated by dots. */
  function Print(cs: seq<nat>): Text {
    if cs == [] then [] else if |cs| == 1 then Digits(cs[0]) else Digits(cs[0]) + [DOT] + Print(cs[1..])
  }

  lemma {:induction false} DigitRunOf(t: Text, rest: Text)
    requires AllDigits(t) && !StartsWithDigit(rest)
    ensures DigitRun(t + rest) == |t|
  {
    if t == [] {
      assert t + rest == rest;
    } else {
      assert (t + rest)[1..] == t[1..] + rest;
      DigitRunOf(t[1..], rest);
    }
  }

  /** The text does not go on with the version: not with a digit, nor, while components are missing,
      with a dot and a digit. */
  predicate Ends(rest: Text, complete: bool) {
    !StartsWithDigit(rest) && (complete || |rest| < 2 || rest[0] != DOT || !IsDigit(rest[1]))
  }

  /** The components as texts, the missing ones empty. */
  function Padded(cs: seq<nat>, k: nat): (ts: seq<Text>)
    requires |cs| <= k
    ensures |ts| == k
  {
    if cs == [] then seq(k, _ => []) else [Digits(cs[0])] + Padded(cs[1..], k - 1)
  }

  lemma {:induction false} PaddedAt(cs: seq<nat>, k: nat, i: nat)
    requires |cs| <= k && i < k
    ensures Padded(cs, k)[i] == if i < |cs| then Digits(cs[i]) else []
  {
    if cs != [] && i > 0 {
      PaddedAt(cs[1..], k - 1, i - 1);
    }
  }

  lemma OneComponent(d: Text, rest: Text, k: nat)
    requires k > 0 && AllDigits(d) && Ends(rest, k == 1)
    ensures Components(d + rest, k) == [d] + seq(k - 1, _ => [])
  {
    var s := d + rest;
    DigitRunOf(d, rest);
    assert s[..|d|] == d;
    assert s[|d|..] == rest;
    assert |s| >= |d| + 2 ==> s[|d|] == rest[0] && s[|d| + 1] == rest[1];
  }

  lemma FirstComponent(d: Text, tail: Text, k: nat)
    requires k > 1 && AllDigits(d) && StartsWithDigit(tail)
    ensures Components(d + ([DOT] + tail), k) == [d] + Components(tail, k - 1)
  {
    var s := d + ([DOT] + tail);
    DigitRunOf(d, [DOT] + tail);
    assert s[..|d|] == d && s[|d|] == DOT && s[|d| + 1] == tail[0];
    assert s[|d| + 1..] == tail;
  }

  lemma ComponentsOfOne(c: nat, rest: Text, k: nat)
    requires k > 0 && Ends(rest, k == 1)
    ensures StartsWithDigit(Digits(c) + rest)
    ensures Components(Digits(c) + rest, k) == Padded([c], k)
  {
    DigitsInverse(c);
    assert Digits(c)[0] in Digits(c);
    OneComponent(Digits(c), rest, k);
  }

  lemma ComponentsOfMore(c: nat, cs: seq<nat>, tail: Text, k: nat)
    requires k > 1 && |cs| < k && StartsWithDigit(tail) && Components(tail, k - 1) == Padded(cs, k - 1)
    ensures StartsWithDigit(Digits(c) + ([DOT] + tail))
    ensures Components(Digits(c) + ([DOT] + tail), k) == Padded([c] + cs, k)
  {
    DigitsInverse(c);
    assert Digits(c)[0] in Digits(c);
    FirstComponent(Digits(c), tail, k);
    assert ([c] + cs)[1..] == cs;
  }

  lemma PrintMore(cs: seq<nat>, rest: Text)
    requires |cs| > 1
    ensures Print(cs) + rest == Digits(cs[0]) + ([DOT] + (Print(cs[1..]) + rest))
  {
    var d, p := Digits(cs[0]), Print(cs[1..]);
    assert Print(cs) == d + [DOT] + p;
    Regroup(d, [DOT], p, rest);
  }

  lemma Regroup(a: Text, b: Text, c: Text, d: Text)
    ensures a + b + c + d == a + (b + (c + d))
  {
  }

  lemma {:induction false} ComponentsOfPrint(cs: seq<nat>, rest: Text, k: nat)
    requires 1 <= |cs| <= k && Ends(rest, |cs| == k)
    ensures StartsWithDigit(Print(cs) + rest)
    ensures Components(Print(cs) + rest, k) == Padded(cs, k)
    decreases k
  {
    if |cs| == 1 {
      ComponentsOfOne(cs[0], rest, k);
      assert cs == [cs[0]];
    } else {
      ComponentsOfPrint(cs[1..], rest, k - 1);
      ComponentsOfMore(cs[0], cs[1..], Print(cs[1..]) + rest, k);
      PrintMore(cs, rest);
      assert cs == [cs[0]] + cs[1..];
    }
  }

  lemma {:induction false} DropPrefix(prefix: Text, t: Text)
    requires (forall b | b in prefix :: !IsDigit(b)) && StartsWithDigit(t)
    ensures DropToDigit(prefix + t) == t
  {
    if prefix == [] {
      assert prefix + t == t;
    } else {
      assert (prefix + t)[1..] == prefix[1..] + t;
      DropPrefix(prefix[1..], t);
    }
  }

  function Saturated(c: nat): nat {
    if c <= MAX_INT then c else MAX_INT
  }

  /** One to four printed components, after any text without digits and before any text that does not
      continue them, are read back exactly, but for those from 2^63 on, which read as 2^63 - 1; the missing
      ones are zero. */
  lemma ParsePrint(prefix: Text, cs: seq<nat>, rest: Text)
    requires 1 <= |cs| <= 4
    requires (forall b | b in prefix :: !IsDigit(b)) && Ends(rest, |cs| == 4)
    ensures |Parse(prefix + Print(cs) + rest)| == 4
    ensures forall i | 0 <= i < 4 ::
              Parse(prefix + Print(cs) + rest)[i] == if i < |cs| then Saturated(cs[i]) else 0
  {
    var p := Print(cs);
    ComponentsOfPrint(cs, rest, 4);
    RegroupThree(prefix, p, rest);
    DropPrefix(prefix, p + rest);
    ParseComponents(prefix + p + rest, p + rest, cs);
  }

  lemma RegroupThree(a: Text, b: Text, c: Text)
    ensures a + b + c == a + (b + c)
  {
  }

  lemma ParseComponents(s: Text, t: Text, cs: seq<nat>)
    requires |cs| <= 4 && t != [] && DropToDigit(s) == t && Components(t, 4) == Padded(cs, 4)
    ensures |Parse(s)| == 4 && forall i | 0 <= i < 4 :: Parse(s)[i] == if i < |cs| then Saturated(cs[i]) else 0
  {
    ParseIs(s, t, Padded(cs, 4));
    PaddedReads(cs, Padded(cs, 4));
  }

  lemma ParseIs(s: Text, t: Text, ts: seq<Text>)
    requires t != [] && DropToDigit(s) == t && Components(t, 4) == ts
    ensures Parse(s) == [Atoi(ts[0]), Atoi(ts[1]), Atoi(ts[2]), Atoi(ts[3])]
  {
  }

  lemma PaddedReads(cs: seq<nat>, ts: seq<Text>)
    requires |cs| <= 4 && ts == Padded(cs, 4)
    ensures var found := [Atoi(ts[0]), Atoi(ts[1]), Atoi(ts[2]), Atoi(ts[3])];
      forall i | 0 <= i < 4 :: found[i] == if i < |cs| then Saturated(cs[i]) else 0
  {
    var found := [Atoi(ts[0]), Atoi(ts[1]), Atoi(ts[2]), Atoi(ts[3])];
    forall i | 0 <= i < 4 ensures found[i] == if i < |cs| then Saturated(cs[i]) else 0 {
      assert found[i] == Atoi(ts[i]);
      AtoiPadded(cs, i);
    }
  }

  lemma AtoiPadded(cs: seq<nat>, i: nat)
    requires |cs| <= 4 && i < 4
    ensures Atoi(Padded(cs, 4)[i]) == if i < |cs| then Saturated(cs[i]) else 0
  {
    PaddedAt(cs, 4, i);
    if i < |cs| {
      DigitsInverse(cs[i]);
    }
  }

  /** The parse is four components exactly if the string has a digit, and empty otherwise. */
  lemma {:induction false} ParseDefined(s: Text)
    ensures |Parse(s)| == (if exists b | b in s :: IsDigit(b) then 4 else 0)
  {
    if s != [] && !IsDigit(s[0]) {
      ParseDefined(s[1..]);
      assert s == [s[0]] + s[1..];
    }
  }
}
