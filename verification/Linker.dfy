// Library linking in compiled bytecode: the replacement loop refines the substitution of
// all labels at once.
module Linker {
  import opened Results

  // --- labels and addresses -------------------------------------------------------------

  function Repeat(c: char, n: nat): (s: string)
    ensures |s| == n && forall i :: 0 <= i < n ==> s[i] == c
  {
    seq(n, _ => c)
  }

  // The first 36 characters of the name, padded with underscores, between two pairs of them.
  function LabelOf(name: string): (tag: string)
    ensures IsLabel(tag) && Placeholder(name, tag)
  {
    var truncated := if |name| <= 36 then name else name[..36];
    "__" + truncated + Repeat('_', 36 - |truncated|) + "__"
  }

  // Two underscores, up to 36 characters of the name, and underscores up to 40 characters.
  predicate Placeholder(name: string, tag: string) {
    |tag| == 40 && forall k :: 0 <= k < 40 ==> tag[k] == if 2 <= k < 38 && k - 2 < |name| then name[k - 2] else '_'
  }

  // Names of at most 36 characters that do not end in an underscore have different labels.
  lemma {:induction false} LabelsDiffer(a: string, b: string)
    requires |a| <= 36 && (a == "" || a[|a| - 1] != '_')
    requires |b| <= 36 && (b == "" || b[|b| - 1] != '_')
    ensures LabelOf(a) == LabelOf(b) ==> a == b
  {
    var x, y := LabelOf(a), LabelOf(b);
    assert forall k :: 0 <= k < |a| ==> x[k + 2] == a[k];
    assert forall k :: 0 <= k < |b| ==> y[k + 2] == b[k];
    assert |a| < |b| ==> x[|b| + 1] == '_' != y[|b| + 1];
    assert |b| < |a| ==> y[|a| + 1] == '_' != x[|a| + 1];
  }

  // The same label exactly when the first 36 characters agree, with underscores for missing
  // ones.
  lemma {:induction false} SameLabelIff(a: string, b: string)
    ensures LabelOf(a) == LabelOf(b) <==>
      forall k :: 0 <= k < 36 ==> (if k < |a| then a[k] else '_') == (if k < |b| then b[k] else '_')
  {
    var x, y := LabelOf(a), LabelOf(b);
    if x == y {
      forall k | 0 <= k < 36 ensures (if k < |a| then a[k] else '_') == (if k < |b| then b[k] else '_') {
        assert x[k + 2] == y[k + 2];
      }
    }
    if forall k :: 0 <= k < 36 ==> (if k < |a| then a[k] else '_') == (if k < |b| then b[k] else '_') {
      forall k | 0 <= k < 40 ensures x[k] == y[k] {
        if 2 <= k < 38 {
          assert (if k - 2 < |a| then a[k - 2] else '_') == (if k - 2 < |b| then b[k - 2] else '_');
        }
      }
    }
  }

  predicate IsLabel(tag: string) {
    |tag| == 40 && tag[0] == '_' && tag[39] == '_'
  }

  // keccak is the hash as a hexadecimal string.
  function HashPlaceholder(name: string, keccak: string -> string): string {
    var h := keccak(name);
    "$" + (if |h| <= 34 then h else h[..34]) + "$"
  }

  // Two underscores and a dollar sign, the first 34 digits of the hash, and the reverse.
  predicate HashedPlaceholder(h: string, tag: string)
    requires |h| >= 34
  {
    |tag| == 40 && tag[..3] == "__$" && tag[3..37] == h[..34] && tag[37..] == "$__"
  }

  lemma {:induction false} HashedLabelIff(name: string, keccak: string -> string, tag: string)
    requires |keccak(name)| >= 34
    ensures HashedPlaceholder(keccak(name), tag) <==> tag == LabelOf(HashPlaceholder(name, keccak))
  {
    var h, l := HashPlaceholder(name, keccak), LabelOf(HashPlaceholder(name, keccak));
    assert h == "$" + keccak(name)[..34] + "$";
    assert l == "__" + h + Repeat('_', 0) + "__";
    assert l == "__$" + keccak(name)[..34] + "$__";
    if HashedPlaceholder(keccak(name), tag) {
      assert tag == tag[..3] + tag[3..37] + tag[37..];
    }
  }

  predicate IsHexDigit(c: char) {
    '0' <= c <= '9' || 'a' <= c <= 'f' || 'A' <= c <= 'F'
  }

  // The check that the linker makes, and the form that an address has.
  predicate AcceptedAddress(a: string) {
    |a| >= 2 && a[..2] == "0x" && |a| <= 42
  }

  predicate HexAddress(a: string) {
    |a| >= 2 && forall i :: 2 <= i < |a| ==> IsHexDigit(a[i])
  }

  function Padded(a: string): (b: string)
    requires AcceptedAddress(a)
    ensures PaddedFrom(a, b)
    ensures HexAddress(a) ==> forall i :: 0 <= i < 40 ==> b[i] != '_' && b[i] != '$'
  {
    Repeat('0', 40 - (|a| - 2)) + a[2..]
  }

  // Forty characters: what follows the 0x, after zeros.
  predicate PaddedFrom(a: string, b: string) {
    2 <= |a| <= 42 && |b| == 40 && forall i :: 0 <= i < 40 ==> b[i] == if i < 42 - |a| then '0' else a[i + |a| - 40]
  }

  // --- occurrences ----------------------------------------------------------------------

  predicate OccursAt(s: string, tag: string, p: int) {
    0 <= p && p + |tag| <= |s| && s[p..p + |tag|] == tag
  }

  // The first occurrence at i or after it, or -1.
  function FirstFrom(s: string, tag: string, i: nat): (p: int)
    ensures p < 0 ==> p == -1 && forall k :: i <= k ==> !OccursAt(s, tag, k)
    ensures p >= 0 ==> OccursAt(s, tag, p) && i <= p && forall k :: i <= k < p ==> !OccursAt(s, tag, k)
    decreases |s| - i
  {
    if i + |tag| > |s| then -1
    else if s[i..i + |tag|] == tag then i
    else FirstFrom(s, tag, i + 1)
  }

  // s.indexOf(label)
  method IndexOf(s: string, tag: string) returns (p: int)
    ensures p == FirstFrom(s, tag, 0)
    ensures p < 0 ==> forall i :: !OccursAt(s, tag, i)
    ensures p >= 0 ==> OccursAt(s, tag, p) && forall i :: 0 <= i < p ==> !OccursAt(s, tag, i)
  {
    p := 0;
    while p + |tag| <= |s|
      invariant 0 <= p
      invariant forall i :: 0 <= i < p ==> !OccursAt(s, tag, i)
      invariant FirstFrom(s, tag, p) == FirstFrom(s, tag, 0)
    {
      if s[p..p + |tag|] == tag {
        return;
      }
      p := p + 1;
    }
    p := -1;
  }

  function Spliced(s: string, address: string, p: nat): (t: string)
    requires |address| == 40 && p + 40 <= |s|
    ensures |t| == |s|
    ensures forall k :: 0 <= k < |s| ==> t[k] == if p <= k < p + 40 then address[k - p] else s[k]
  {
    s[..p] + address + s[p + 40..]
  }

  predicate NoUnderscore(s: string) {
    forall i :: 0 <= i < |s| ==> s[i] != '_'
  }

  // Splicing an address creates no occurrence of any label, and destroys exactly those that
  // it overlaps.
  lemma {:induction false} SpliceOccurrences(s: string, address: string, p: nat, tag: string, o: int)
    requires |address| == 40 && NoUnderscore(address) && p + 40 <= |s| && IsLabel(tag)
    ensures OccursAt(Spliced(s, address, p), tag, o) <==> OccursAt(s, tag, o) && (o + 40 <= p || p + 40 <= o)
  {
    var t := Spliced(s, address, p);
    if 0 <= o && o + 40 <= |s| {
      if o + 40 <= p || p + 40 <= o {
        assert t[o..o + 40] == s[o..o + 40];
      } else if p <= o {
        assert t[o..o + 40][0] == address[o - p];
      } else {
        assert t[o..o + 40][39] == address[o + 39 - p];
      }
    }
  }

  // --- replacing one label --------------------------------------------------------------

  // In a replacement string `$` is special before another `$`, before & (the match), before
  // a backquote (what precedes the match) and before a quote (what follows it).
  predicate Special(c: char) { c == '$' || c == '&' || c == '`' || c == '\'' }

  predicate Active(r: string) { |r| >= 2 && r[0] == '$' && Special(r[1]) }

  // What the front of the string stands for at the match of length n at p, and the rest.
  function Piece(r: string, s: string, p: nat, n: nat): string
    requires r != "" && p + n <= |s|
  {
    if !Active(r) then [r[0]]
    else if r[1] == '$' then "$"
    else if r[1] == '&' then s[p..p + n]
    else if r[1] == '`' then s[..p]
    else s[p + n..]
  }

  function Tail(r: string): (t: string)
    requires r != ""
    ensures |t| < |r|
  {
    if Active(r) then r[2..] else r[1..]
  }

  function Expand(r: string, s: string, p: nat, n: nat): string
    requires p + n <= |s|
    decreases |r|
  {
    if r == "" then "" else Piece(r, s, p, n) + Expand(Tail(r), s, p, n)
  }

  // The replacement string uses `$` before c.
  predicate Uses(r: string, c: char)
    decreases |r|
  {
    r != "" && ((Active(r) && r[1] == c) || Uses(Tail(r), c))
  }

  // A replacement string that stands for itself.
  predicate Literal(r: string) {
    forall i :: 0 <= i < |r| - 1 && r[i] == '$' ==> !Special(r[i + 1])
  }

  lemma {:induction false} LiteralTail(r: string)
    requires Literal(r) && r != ""
    ensures !Active(r) && Literal(r[1..])
  {
    forall i | 0 <= i < |r[1..]| - 1 && r[1..][i] == '$' ensures !Special(r[1..][i + 1]) {
      assert r[i + 1] == '$';
    }
  }

  lemma {:induction false} LiteralExpands(r: string, s: string, p: nat, n: nat)
    requires p + n <= |s| && Literal(r)
    ensures Expand(r, s, p, n) == r
    decreases |r|
  {
    hide Literal;
    if r != "" {
      LiteralTail(r);
      LiteralExpands(r[1..], s, p, n);
    }
  }

  // bytecode.replace(label, address)
  function ReplaceFirst(s: string, tag: string, address: string): string {
    var p := FirstFrom(s, tag, 0);
    if p < 0 then s else s[..p] + Expand(address, s, p, |tag|) + s[p + |tag|..]
  }

  // It uses neither what precedes nor what follows the match.
  predicate Local(r: string) { !Uses(r, '`') && !Uses(r, '\'') }

  // Then it stands for the same at every match of the label.
  function Image(r: string, tag: string): string { Expand(r, tag, 0, |tag|) }

  lemma {:induction false} ExpandsToImage(r: string, tag: string, s: string, p: nat)
    requires Local(r) && OccursAt(s, tag, p)
    ensures Expand(r, s, p, |tag|) == Image(r, tag)
    decreases |r|
  {
    hide Piece;
    if r != "" {
      PieceOfMatch(r, tag, s, p);
      ExpandsToImage(Tail(r), tag, s, p);
    }
  }

  lemma {:induction false} PieceOfMatch(r: string, tag: string, s: string, p: nat)
    requires r != "" && Local(r) && OccursAt(s, tag, p)
    ensures Piece(r, s, p, |tag|) == Piece(r, tag, 0, |tag|) && Local(Tail(r))
  {
    assert tag[0..|tag|] == tag;
  }

  predicate PartAt(s: string, part: string, k: nat) { k + |part| <= |s| && s[k..k + |part|] == part }

  // What a dollar sign before c puts in: before & the match itself, before a backquote all
  // that precedes it, before a quote all that follows it.
  function PutIn(c: char, s: string, p: nat, n: nat): string
    requires p + n <= |s|
  {
    if c == '&' then s[p..p + n] else if c == '`' then s[..p] else s[p + n..]
  }

  lemma {:induction false} ExpandContains(r: string, s: string, p: nat, n: nat, c: char) returns (k: nat)
    requires p + n <= |s| && Uses(r, c) && (c == '&' || c == '`' || c == '\'')
    ensures PartAt(Expand(r, s, p, n), PutIn(c, s, p, n), k)
    decreases |r|
  {
    hide PartAt, Expand, Uses, Piece;
    var part := PutIn(c, s, p, n);
    ExpandStep(r, s, p, n, c);
    if Active(r) && r[1] == c {
      k := 0;
      PartsOf("", part, Expand(Tail(r), s, p, n));
      assert "" + part == part;
    } else {
      var j := ExpandContains(Tail(r), s, p, n, c);
      PartOfRest(Piece(r, s, p, n), Expand(Tail(r), s, p, n), part, j);
      k := |Piece(r, s, p, n)| + j;
    }
  }

  lemma {:induction false} ExpandStep(r: string, s: string, p: nat, n: nat, c: char)
    requires p + n <= |s| && Uses(r, c)
    ensures r != "" && Expand(r, s, p, n) == Piece(r, s, p, n) + Expand(Tail(r), s, p, n)
    ensures Active(r) && r[1] == c && c != '$' ==> Piece(r, s, p, n) == PutIn(c, s, p, n)
    ensures !(Active(r) && r[1] == c) ==> Uses(Tail(r), c)
  {
  }

  lemma {:induction false} PartOfRest(a: string, b: string, part: string, k: nat)
    requires PartAt(b, part, k)
    ensures PartAt(a + b, part, |a| + k)
  {
    assert (a + b)[|a| + k..|a| + k + |part|] == b[k..k + |part|];
  }

  lemma {:induction false} PartsOf(a: string, b: string, c: string)
    ensures PartAt(a + b + c, b, |a|) && PartAt(a + b + c, c, |a| + |b|)
  {
  }

  // Otherwise the replacement string stands for itself, but for doubled dollar signs.
  lemma {:induction false} ImageShrinks(r: string, tag: string)
    requires Local(r) && !Uses(r, '&')
    ensures |Image(r, tag)| <= |r|
    ensures if Uses(r, '$') then |Image(r, tag)| < |r| else Image(r, tag) == r
    decreases |r|
  {
    if r != "" { ImageShrinks(Tail(r), tag); }
  }

  lemma {:induction false} LiteralUsesNone(r: string, c: char)
    requires Literal(r)
    ensures !Uses(r, c)
    decreases |r|
  {
    hide Literal;
    if r != "" {
      LiteralTail(r);
      LiteralUsesNone(r[1..], c);
    }
  }

  // --- when the loop ends ---------------------------------------------------------------

  // The bytecode after n rounds of the loop; a round changes nothing once the label is gone.
  function After(s: string, tag: string, address: string, n: nat): string {
    if n == 0 then s else ReplaceFirst(After(s, tag, address, n - 1), tag, address)
  }

  ghost predicate Gone(t: string, tag: string) {
    forall p :: !OccursAt(t, tag, p)
  }

  // The loop ends with t.
  ghost predicate Yields(s: string, tag: string, address: string, t: string) {
    Gone(t, tag) && exists n :: After(s, tag, address, n) == t
  }

  ghost predicate Ends(s: string, tag: string, address: string) {
    exists t :: Yields(s, tag, address, t)
  }

  const BASE: nat := 0x11_0000

  // A string as a number, its characters being the digits.
  function Value(s: string): nat {
    if s == "" then 0 else Value(s[..|s| - 1]) * BASE + s[|s| - 1] as int
  }

  function Pow(n: nat): (r: nat)
    ensures r > 0
  {
    if n == 0 then 1 else Pow(n - 1) * BASE
  }

  lemma {:induction false} ValueBound(s: string)
    ensures Value(s) < Pow(|s|)
    decreases |s|
  {
    if s != "" { ValueBound(s[..|s| - 1]); }
  }

  lemma {:induction false} ValueConcat(a: string, b: string)
    ensures Value(a + b) == Value(a) * Pow(|b|) + Value(b)
    decreases |b|
  {
    if b == "" {
      assert a + b == a;
    } else {
      var c := b[..|b| - 1];
      assert (a + b)[..|a + b| - 1] == a + c;
      ValueConcat(a, c);
      Rescale(Value(a), Pow(|c|), Value(c), BASE);
    }
  }

  lemma {:induction false} Rescale(a: int, p: int, c: int, d: int)
    ensures (a * p + c) * d == a * (p * d) + c * d
  {
  }

  lemma {:induction false} ValueInjective(a: string, b: string)
    requires |a| == |b| && Value(a) == Value(b)
    ensures a == b
    decreases |a|
  {
    if a != "" {
      var x, y := Value(a[..|a| - 1]), Value(b[..|b| - 1]);
      SameDigits(x, a[|a| - 1] as int, y, b[|b| - 1] as int);
      ValueInjective(a[..|a| - 1], b[..|b| - 1]);
      assert a == a[..|a| - 1] + [a[|a| - 1]] && b == b[..|b| - 1] + [b[|b| - 1]];
    }
  }

  lemma {:induction false} SameDigits(x: int, c: int, y: int, d: int)
    requires x * BASE + c == y * BASE + d && 0 <= c < BASE && 0 <= d < BASE
    ensures x == y && c == d
  {
  }

  // Replacing an occurrence changes the value by a positive multiple of the difference
  // between the address and the label.
  lemma {:induction false} SpliceValue(s: string, tag: string, address: string, p: nat)
    requires |tag| == |address| == 40 && OccursAt(s, tag, p)
    ensures Value(Spliced(s, address, p)) - Value(s) == (Value(address) - Value(tag)) * Pow(|s| - p - 40)
  {
    hide Value, Pow;
    var before, rest := s[..p], s[p + 40..];
    assert s == (before + tag) + rest && Spliced(s, address, p) == (before + address) + rest;
    ValueConcat(before + tag, rest);
    ValueConcat(before, tag);
    ValueConcat(before + address, rest);
    ValueConcat(before, address);
    Difference(Value(before) * Pow(40), Value(tag), Value(address), Pow(|rest|));
  }

  lemma {:induction false} Difference(x: int, a: int, b: int, p: int)
    ensures (x + b) * p - (x + a) * p == (b - a) * p
  {
  }

  // What every round decreases: towards the larger or the smaller of label and address.
  function Measure(t: string, tag: string, address: string): nat {
    ValueBound(t);
    if Value(address) > Value(tag) then Pow(|t|) - Value(t) else Value(t)
  }

  lemma {:induction false} RoundDecreases(t: string, tag: string, address: string, p: nat)
    requires |tag| == |address| == 40 && tag != address && OccursAt(t, tag, p)
    ensures Measure(Spliced(t, address, p), tag, address) < Measure(t, tag, address)
  {
    hide Value, Pow;
    SpliceValue(t, tag, address, p);
    if Value(address) == Value(tag) { ValueInjective(address, tag); }
    Moves(Value(address) - Value(tag), Pow(|t| - p - 40));
    ValueBound(Spliced(t, address, p));
  }

  lemma {:induction false} Moves(d: int, p: int)
    requires p > 0
    ensures d > 0 ==> d * p > 0
    ensures d < 0 ==> d * p < 0
  {
  }

  lemma {:induction false} AfterShift(s: string, tag: string, address: string, n: nat)
    ensures After(ReplaceFirst(s, tag, address), tag, address, n) == After(s, tag, address, n + 1)
  {
    if n > 0 { AfterShift(s, tag, address, n - 1); }
  }

  lemma {:induction false} AfterGone(s: string, tag: string, address: string, n: nat)
    requires Gone(s, tag)
    ensures After(s, tag, address, n) == s
  {
    if n > 0 { AfterGone(s, tag, address, n - 1); }
  }

  // The label does not come back: the guard under which the loop ends on every bytecode.
  ghost predicate Stops(tag: string, address: string) {
    Local(address) && Gone(Image(address, tag), tag)
  }

  // It can be read off the replacement string.
  lemma {:induction false} StopsIff(tag: string, address: string)
    requires |tag| == |address| == 40
    ensures Stops(tag, address) <==> Local(address) && !Uses(address, '&') && (address != tag || Uses(address, '$'))
  {
    if Local(address) {
      if Uses(address, '&') {
        var k := ExpandContains(address, tag, 0, 40, '&');
        assert tag[0..40] == tag;
        assert OccursAt(Image(address, tag), tag, k);
      } else {
        ImageShrinks(address, tag);
        if address == tag && !Uses(address, '$') {
          assert OccursAt(tag, tag, 0);
        } else {
          forall p ensures !OccursAt(Image(address, tag), tag, p) {
            assert Image(address, tag) == address ==> address[0..40] == address;
          }
        }
      }
    }
  }

  // One round: the first occurrence is replaced by the image, which is shorter than the label
  // or moves the value.
  lemma {:induction false} Round(s: string, tag: string, address: string, p: nat)
    requires |tag| == |address| == 40 && Stops(tag, address) && p == FirstFrom(s, tag, 0)
    ensures p + 40 <= |s| && ReplaceFirst(s, tag, address) == s[..p] + Expand(address, s, p, 40) + s[p + 40..]
    ensures var t := ReplaceFirst(s, tag, address);
      |t| < |s| || (|t| == |s| && Image(address, tag) == address && Measure(t, tag, address) < Measure(s, tag, address))
    ensures Literal(address) ==> ReplaceFirst(s, tag, address) == Spliced(s, address, p)
  {
    hide Measure, FirstFrom;
    ExpandsToImage(address, tag, s, p);
    StopsIff(tag, address);
    ImageShrinks(address, tag);
    if !Uses(address, '$') {
      assert ReplaceFirst(s, tag, address) == Spliced(s, address, p);
      RoundDecreases(s, tag, address, p);
    } else if Literal(address) {
      LiteralUsesNone(address, '$');
    }
  }

  lemma {:induction false} LoopEnds(s: string, tag: string, address: string)
    requires |tag| == |address| == 40 && Stops(tag, address)
    ensures Ends(s, tag, address)
    decreases |s|, Measure(s, tag, address)
  {
    hide Measure, Stops, ReplaceFirst;
    if Gone(s, tag) {
      GoneEnds(s, tag, address);
    } else {
      var u := ReplaceFirst(s, tag, address);
      Round(s, tag, address, FirstFrom(s, tag, 0));
      LoopEnds(u, tag, address);
      var t :| Yields(u, tag, address, t);
      var n :| After(u, tag, address, n) == t;
      AfterShift(s, tag, address, n);
      assert Yields(s, tag, address, t);
    }
  }

  lemma {:induction false} GoneEnds(s: string, tag: string, address: string)
    requires Gone(s, tag)
    ensures Ends(s, tag, address)
  {
    assert After(s, tag, address, 0) == s;
    assert Yields(s, tag, address, s);
  }

  // Part of a part.
  lemma {:induction false} OccursInside(s: string, part: string, k: nat, tag: string, o: nat)
    requires PartAt(s, part, k) && OccursAt(part, tag, o)
    ensures OccursAt(s, tag, k + o)
  {
    forall i | 0 <= i < |tag| ensures s[k + o + i] == tag[i] {
      assert s[k..k + |part|][o + i] == part[o + i] && part[o..o + |tag|][i] == tag[i];
    }
  }

  lemma {:induction false} ReplacedAt(s: string, tag: string, address: string)
    requires !Gone(s, tag)
    ensures var p := FirstFrom(s, tag, 0);
      && OccursAt(s, tag, p)
      && ReplaceFirst(s, tag, address) == s[..p] + Expand(address, s, p, |tag|) + s[p + |tag|..]
  {
    hide Expand;
    var p := FirstFrom(s, tag, 0);
    assert p < 0 ==> Gone(s, tag);
    assert p >= 0 && OccursAt(s, tag, p);
  }

  // When the replacement puts the label back, it stays in the bytecode.
  lemma {:induction false} StaysThere(s: string, tag: string, address: string, n: nat)
    requires Uses(address, '&') || (Local(address) && !Gone(Image(address, tag), tag))
    requires !Gone(s, tag)
    ensures !Gone(After(s, tag, address, n), tag)
  {
    hide Gone, Uses, Local, Image;
    if n > 0 {
      StaysThere(s, tag, address, n - 1);
      StaysOnce(After(s, tag, address, n - 1), tag, address);
    }
  }

  lemma {:induction false} StaysOnce(s: string, tag: string, address: string)
    requires Uses(address, '&') || (Local(address) && !Gone(Image(address, tag), tag))
    requires !Gone(s, tag)
    ensures !Gone(ReplaceFirst(s, tag, address), tag)
  {
    hide FirstFrom, ReplaceFirst, Image, Expand, PartAt, Uses;
    var p := FirstFrom(s, tag, 0);
    ReplacedAt(s, tag, address);
    var e, o := Expand(address, s, p, |tag|), 0;
    PartsOf(s[..p], e, s[p + |tag|..]);
    if Uses(address, '&') {
      o := ExpandContains(address, s, p, |tag|, '&');
      PartOccurs(e, tag, o);
    } else {
      ExpandsToImage(address, tag, s, p);
      o :| OccursAt(Image(address, tag), tag, o);
    }
    OccursInside(ReplaceFirst(s, tag, address), e, p, tag, o);
  }

  lemma {:induction false} PartOccurs(s: string, part: string, k: nat)
    requires PartAt(s, part, k)
    ensures OccursAt(s, part, k)
  {
  }

  // For an address that does not use what precedes or follows the match, or puts the match
  // back: the loop ends on a bytecode exactly when the label does not come back or does not
  // occur.
  lemma {:induction false} EndsIff(s: string, tag: string, address: string)
    requires |tag| == |address| == 40 && (Local(address) || Uses(address, '&'))
    ensures Ends(s, tag, address) <==> Stops(tag, address) || Gone(s, tag)
  {
    hide Uses, Local;
    StopsIff(tag, address);
    if Stops(tag, address) {
      LoopEnds(s, tag, address);
    } else if Gone(s, tag) {
      GoneEnds(s, tag, address);
    } else {
      forall t ensures !Yields(s, tag, address, t) {
        forall n ensures After(s, tag, address, n) != t || !Gone(t, tag) {
          StaysThere(s, tag, address, n);
        }
      }
    }
  }

  // Two occurrences, one after the other.
  ghost predicate Twice(s: string, tag: string) {
    exists p, r :: OccursAt(s, tag, p) && OccursAt(s, tag, r) && p + |tag| <= r
  }

  // An address that puts in what follows the match never gets rid of the second one.
  lemma {:induction false} TwiceStays(s: string, tag: string, address: string, n: nat)
    requires Uses(address, '\'') && Twice(s, tag)
    ensures Twice(After(s, tag, address, n), tag)
  {
    hide Twice, Uses, ReplaceFirst;
    if n > 0 {
      TwiceStays(s, tag, address, n - 1);
      TwiceKept(After(s, tag, address, n - 1), tag, address);
    }
  }

  lemma {:induction false} TwiceKept(s: string, tag: string, address: string)
    requires Uses(address, '\'') && Twice(s, tag)
    ensures Twice(ReplaceFirst(s, tag, address), tag)
  {
    hide Uses, FirstFrom, ReplaceFirst;
    var q, r :| OccursAt(s, tag, q) && OccursAt(s, tag, r) && q + |tag| <= r;
    FirstBefore(s, tag, q);
    SecondCopied(s, tag, address, r);
  }

  lemma {:induction false} FirstBefore(s: string, tag: string, q: nat)
    requires OccursAt(s, tag, q)
    ensures 0 <= FirstFrom(s, tag, 0) <= q
  {
  }

  lemma {:induction false} SecondCopied(s: string, tag: string, address: string, r: nat)
    requires Uses(address, '\'') && OccursAt(s, tag, r) && 0 <= FirstFrom(s, tag, 0) && FirstFrom(s, tag, 0) + |tag| <= r
    ensures Twice(ReplaceFirst(s, tag, address), tag)
  {
    hide FirstFrom, ReplaceFirst, Expand, Uses, PartAt, Twice;
    var p := FirstFrom(s, tag, 0);
    ReplacedAt(s, tag, address);
    var k := ExpandContains(address, s, p, |tag|, '\'');
    OccursAfter(s, p + |tag|, tag, r);
    TwoCopies(s[..p], Expand(address, s, p, |tag|), s[p + |tag|..], tag, k, r - p - |tag|);
  }

  lemma {:induction false} OccursAfter(s: string, i: nat, tag: string, r: nat)
    requires OccursAt(s, tag, r) && i <= r
    ensures OccursAt(s[i..], tag, r - i)
  {
    assert s[i..][r - i..r - i + |tag|] == s[r..r + |tag|];
  }

  lemma {:induction false} TwoCopies(a: string, e: string, rest: string, tag: string, k: nat, o: nat)
    requires PartAt(e, rest, k) && OccursAt(rest, tag, o)
    ensures Twice(a + e + rest, tag)
  {
    var t := a + e + rest;
    PartsOf(a, e, rest);
    OccursInside(e, rest, k, tag, o);
    OccursInside(t, e, |a|, tag, k + o);
    OccursInside(t, rest, |a| + |e|, tag, o);
    assert OccursAt(t, tag, |a| + (k + o)) && OccursAt(t, tag, |a| + |e| + o);
  }

  // The address uses what precedes the match, and neither the match nor what follows it.
  predicate OnlyBefore(r: string) { Uses(r, '`') && !Uses(r, '&') && !Uses(r, '\'') }

  const SEPARATOR: string := "0000000000000000000000000000000000000000"

  // The label twice, far enough apart.
  function Witness(tag: string): (s: string)
    ensures OccursAt(s, tag, 0) && Twice(s, tag)
  {
    var s := tag + SEPARATOR + tag;
    assert s[0..|tag|] == tag && s[|tag| + 40..|tag| + 40 + |tag|] == tag;
    assert OccursAt(s, tag, 0) && OccursAt(s, tag, |tag| + 40);
    s
  }

  lemma {:induction false} WitnessLoops(tag: string, address: string)
    requires |tag| == |address| == 40 && !OnlyBefore(address) && !Stops(tag, address)
    ensures !Ends(Witness(tag), tag, address)
  {
    var s := Witness(tag);
    if Uses(address, '\'') {
      forall t ensures !Yields(s, tag, address, t) {
        forall n ensures After(s, tag, address, n) != t || !Gone(t, tag) {
          TwiceStays(s, tag, address, n);
        }
      }
    } else {
      EndsIff(s, tag, address);
    }
  }

  // The loop ends on every bytecode exactly when the address uses neither the match nor what
  // follows it, and is not the label itself (but for a doubled dollar sign, which shrinks).
  lemma {:induction false} AlwaysEndsIff(tag: string, address: string)
    requires |tag| == |address| == 40 && !OnlyBefore(address)
    ensures (forall s :: Ends(s, tag, address)) <==> Stops(tag, address)
    ensures Stops(tag, address) <==>
      !Uses(address, '\'') && !Uses(address, '&') && (address != tag || Uses(address, '$'))
  {
    StopsIff(tag, address);
    if Stops(tag, address) {
      forall s ensures Ends(s, tag, address) {
        LoopEnds(s, tag, address);
      }
    } else {
      WitnessLoops(tag, address);
    }
  }

  // The check on addresses accepts addresses with which the loop never ends: a label ...
  lemma {:induction false} SelfReplacementLoops(s: string, name: string, p: nat)
    requires OccursAt(s, LabelOf(name), p) && Literal(LabelOf(name))
    ensures AcceptedAddress("0x" + LabelOf(name)) && Padded("0x" + LabelOf(name)) == LabelOf(name)
    ensures !Ends(s, LabelOf(name), Padded("0x" + LabelOf(name)))
  {
    hide LabelOf, OccursAt, Uses, Literal, Stops;
    var tag := LabelOf(name);
    assert ("0x" + tag)[2..] == tag && ("0x" + tag)[..2] == "0x";
    assert Repeat('0', 0) + tag == tag;
    forall c ensures !Uses(tag, c) {
      LiteralUsesNone(tag, c);
    }
    StopsIff(tag, tag);
    EndsIff(s, tag, tag);
  }

  lemma {:induction false} UsesAfterZeros(n: nat, r: string, c: char)
    ensures Uses(Repeat('0', n) + r, c) == Uses(r, c)
  {
    if n == 0 {
      assert Repeat('0', 0) + r == r;
    } else {
      assert (Repeat('0', n) + r)[1..] == Repeat('0', n - 1) + r;
      UsesAfterZeros(n - 1, r, c);
    }
  }

  // ... and, for every label, the address that puts the label back.
  lemma {:induction false} MatchReplacementLoops(s: string, name: string, p: nat)
    requires OccursAt(s, LabelOf(name), p)
    ensures AcceptedAddress("0x$&") && Padded("0x$&") != LabelOf(name)
    ensures !Ends(s, LabelOf(name), Padded("0x$&"))
  {
    hide LabelOf;
    assert "0x$&"[2..] == "$&";
    forall c ensures Uses(Padded("0x$&"), c) == Uses("$&", c) {
      UsesAfterZeros(38, "$&", c);
    }
    assert Padded("0x$&")[0] == '0';
    StopsIff(LabelOf(name), Padded("0x$&"));
    EndsIff(s, LabelOf(name), Padded("0x$&"));
  }

  function Underscores(s: string): nat {
    if s == [] then 0 else Underscores(s[1..]) + if s[0] == '_' then 1 else 0
  }

  lemma {:induction false} UnderscoresConcat(a: string, b: string)
    ensures Underscores(a + b) == Underscores(a) + Underscores(b)
    decreases |a|
  {
    if a == [] {
      assert a + b == b;
    } else {
      assert (a + b)[1..] == a[1..] + b;
      UnderscoresConcat(a[1..], b);
    }
  }

  lemma {:induction false} NoneCounted(s: string)
    requires NoUnderscore(s)
    ensures Underscores(s) == 0
    decreases |s|
  {
    if s != [] { NoneCounted(s[1..]); }
  }

  // For an address without underscores, every replacement removes underscores.
  lemma {:induction false} SpliceDecreases(s: string, address: string, p: nat, tag: string)
    requires |address| == 40 && NoUnderscore(address) && IsLabel(tag) && OccursAt(s, tag, p)
    ensures Underscores(Spliced(s, address, p)) < Underscores(s)
  {
    assert s == (s[..p] + tag) + s[p + 40..];
    UnderscoresConcat(s[..p] + tag, s[p + 40..]);
    UnderscoresConcat(s[..p], tag);
    UnderscoresConcat(s[..p] + address, s[p + 40..]);
    UnderscoresConcat(s[..p], address);
    NoneCounted(address);
  }

  // --- what the loop yields -------------------------------------------------------------

  // t is s with the address at every occurrence of the label and nothing else changed.
  ghost predicate Replaced(s: string, tag: string, address: string, t: string)
    requires |tag| == 40 && |address| == 40
  {
    && |t| == |s|
    && (forall p, k {:trigger OccursAt(s, tag, p), t[k]} :: OccursAt(s, tag, p) && p <= k < p + 40 ==> t[k] == address[k - p])
    && (forall k :: 0 <= k < |s| && !Covered(s, tag, k) ==> t[k] == s[k])
  }

  // Position k lies in an occurrence of the label.
  ghost predicate Covered(s: string, tag: string, k: int) {
    exists p :: OccursAt(s, tag, p) && p <= k < p + |tag|
  }

  // Two occurrences of labels in s are the same or do not overlap.
  ghost predicate Separate(s: string, a: string, b: string) {
    forall p, r :: OccursAt(s, a, p) && OccursAt(s, b, r) ==> p == r || p + 40 <= r || r + 40 <= p
  }

  // The loop: while the label occurs, replace its first occurrence.
  method ReplaceLabel(bytecode: string, tag: string, address: string) returns (t: string)
    requires IsLabel(tag) && |address| == 40 && Stops(tag, address)
    ensures Yields(bytecode, tag, address, t)
    ensures Literal(address) ==> |t| == |bytecode|
    ensures Literal(address) && NoUnderscore(address) && Separate(bytecode, tag, tag) ==> Replaced(bytecode, tag, address, t)
    ensures Literal(address) && NoUnderscore(address) ==> OthersKept(bytecode, tag, t)
  {
    hide Measure, Separate, Literal, Spliced, ReplaceFirst, FirstFrom, NoUnderscore, OthersKept, Replaced, Stops, Expand, Kept;
    t := bytecode;
    var p := IndexOf(t, tag);
    ghost var n := 0;
    KeptAtFirst(bytecode, tag, address);
    while p >= 0
      invariant p == FirstFrom(t, tag, 0) && t == After(bytecode, tag, address, n)
      invariant Literal(address) ==> |t| == |bytecode|
      invariant Literal(address) && NoUnderscore(address) ==> Kept(bytecode, tag, address, t)
      decreases |t|, Measure(t, tag, address)
    {
      Round(t, tag, address, p);
      if Literal(address) && NoUnderscore(address) {
        KeptByRound(bytecode, tag, address, t, p);
      }
      t := t[..p] + Expand(address, t, p, |tag|) + t[p + |tag|..];
      n := n + 1;
      p := IndexOf(t, tag);
    }
    if Literal(address) && NoUnderscore(address) {
      KeptAtLast(bytecode, tag, address, t);
    }
  }

  // Occurrences of other labels that do not overlap the treated one stay where they are.
  ghost predicate OthersKept(s: string, tag: string, t: string) {
    forall other, o :: IsLabel(other) && Separate(s, tag, other) && other != tag ==>
      (OccursAt(t, other, o) <==> OccursAt(s, other, o))
  }

  // What every round keeps, for an address without underscores.
  ghost predicate Kept(s: string, tag: string, address: string, t: string)
    requires |tag| == 40 && |address| == 40
  {
    && (forall o :: OccursAt(t, tag, o) ==> OccursAt(s, tag, o))
    && (Separate(s, tag, tag) ==> Progress(s, tag, address, t))
    && OthersKept(s, tag, t)
  }

  lemma {:induction false} KeptAtFirst(s: string, tag: string, address: string)
    requires |tag| == 40 && |address| == 40
    ensures Kept(s, tag, address, s)
  {
  }

  lemma {:induction false} KeptAtLast(s: string, tag: string, address: string, t: string)
    requires |tag| == 40 && |address| == 40 && Kept(s, tag, address, t) && Gone(t, tag)
    ensures Separate(s, tag, tag) ==> Replaced(s, tag, address, t)
    ensures OthersKept(s, tag, t)
  {
    if Separate(s, tag, tag) { ProgressDone(s, tag, address, t); }
  }

  lemma {:induction false} KeptByRound(s: string, tag: string, address: string, t: string, p: nat)
    requires IsLabel(tag) && |address| == 40 && NoUnderscore(address)
    requires Kept(s, tag, address, t) && OccursAt(t, tag, p)
    ensures Kept(s, tag, address, Spliced(t, address, p))
  {
    hide Progress;
    var u := Spliced(t, address, p);
    forall other, o | IsLabel(other)
      ensures OccursAt(u, other, o) <==> OccursAt(t, other, o) && (o + 40 <= p || p + 40 <= o)
    {
      SpliceOccurrences(t, address, p, other, o);
    }
    if Separate(s, tag, tag) {
      ProgressStep(s, tag, address, t, p);
    }
    forall other, o | IsLabel(other) && Separate(s, tag, other) && other != tag
      ensures OccursAt(u, other, o) <==> OccursAt(s, other, o)
    {
      if OccursAt(s, other, o) {
        assert OccursAt(s, tag, p);
        assert o != p;
      }
    }
  }

  // Occurrences of the label in s still stand in t, or hold the address; the rest is
  // unchanged.
  ghost predicate Progress(s: string, tag: string, address: string, t: string)
    requires |tag| == 40 && |address| == 40
  {
    && |t| == |s|
    && (forall p :: OccursAt(s, tag, p) ==> OccursAt(t, tag, p) || OccursAt(t, address, p))
    && (forall k :: 0 <= k < |s| && !Covered(s, tag, k) ==> t[k] == s[k])
  }

  lemma {:induction false} ProgressStep(s: string, tag: string, address: string, t: string, p: nat)
    requires IsLabel(tag) && |address| == 40 && NoUnderscore(address)
    requires Separate(s, tag, tag) && Progress(s, tag, address, t)
    requires OccursAt(t, tag, p) && OccursAt(s, tag, p)
    ensures Progress(s, tag, address, Spliced(t, address, p))
  {
    var u := Spliced(t, address, p);
    forall o | OccursAt(s, tag, o) ensures OccursAt(u, tag, o) || OccursAt(u, address, o) {
      if o == p {
        assert u[p..p + 40] == address;
      } else {
        assert o + 40 <= p || p + 40 <= o;
        assert u[o..o + 40] == t[o..o + 40];
      }
    }
    forall k | 0 <= k < |s| && !Covered(s, tag, k) ensures u[k] == s[k] {
      assert !(p <= k < p + 40);
    }
  }

  lemma {:induction false} ProgressDone(s: string, tag: string, address: string, t: string)
    requires |tag| == 40 && |address| == 40 && Progress(s, tag, address, t)
    requires forall p :: !OccursAt(t, tag, p)
    ensures Replaced(s, tag, address, t)
  {
    forall p, k | OccursAt(s, tag, p) && p <= k < p + 40 ensures t[k] == address[k - p] {
      assert OccursAt(t, address, p);
      assert t[k] == t[p..p + 40][k - p];
    }
  }

  // --- all labels -----------------------------------------------------------------------

  datatype Link = Link(tag: string, address: string)

  ghost predicate ValidLinks(links: seq<Link>) {
    forall i :: 0 <= i < |links| ==>
      IsLabel(links[i].tag) && |links[i].address| == 40 && Literal(links[i].address) && NoUnderscore(links[i].address)
  }

  ghost predicate AllSeparate(s: string, links: seq<Link>) {
    forall i, j :: 0 <= i < |links| && 0 <= j < |links| ==> Separate(s, links[i].tag, links[j].tag)
  }

  // The address of the first link with this label.
  function AddressFor(links: seq<Link>, tag: string): string {
    if links == [] then "" else if links[0].tag == tag then links[0].address else AddressFor(links[1..], tag)
  }

  lemma {:induction false} AddressForAppend(links: seq<Link>, link: Link, tag: string)
    ensures AddressFor(links + [link], tag)
         == if exists j :: 0 <= j < |links| && links[j].tag == tag then AddressFor(links, tag)
            else if link.tag == tag then link.address else ""
    ensures (exists j :: 0 <= j < |links| && links[j].tag == tag) ==> exists j :: 0 <= j < |links| && links[j].tag == tag && AddressFor(links, tag) == links[j].address
    decreases |links|
  {
    if links != [] {
      assert (links + [link])[1..] == links[1..] + [link];
      AddressForAppend(links[1..], link, tag);
      forall j | 0 < j < |links| ensures links[1..][j - 1] == links[j] {
      }
      if links[0].tag != tag && exists j :: 0 <= j < |links| && links[j].tag == tag {
        var j :| 0 <= j < |links| && links[j].tag == tag;
        assert links[1..][j - 1].tag == tag;
        var i :| 0 <= i < |links[1..]| && links[1..][i].tag == tag && AddressFor(links[1..], tag) == links[1..][i].address;
        assert links[i + 1].tag == tag && AddressFor(links, tag) == links[i + 1].address;
      }
    }
  }

  // t is s with every occurrence of every label replaced at once, and nothing else changed.
  ghost predicate Substituted(s: string, links: seq<Link>, t: string) {
    && |t| == |s|
    && (forall i, p, k :: 0 <= i < |links| && Inside(s, links[i].tag, p, k) ==> Holds(t, k, AddressFor(links, links[i].tag), k - p))
    && (forall k :: 0 <= k < |s| && !CoveredByAny(s, links, k) ==> t[k] == s[k])
  }

  // Position k lies in the occurrence of the label at p.
  predicate Inside(s: string, tag: string, p: int, k: int) {
    OccursAt(s, tag, p) && p <= k < p + |tag|
  }

  // t has at k what the address has at i.
  predicate Holds(t: string, k: int, address: string, i: int) {
    0 <= k < |t| && 0 <= i < |address| && t[k] == address[i]
  }

  ghost predicate CoveredByAny(s: string, links: seq<Link>, k: int) {
    exists i :: 0 <= i < |links| && Covered(s, links[i].tag, k)
  }

  ghost predicate HasTag(links: seq<Link>, tag: string) {
    exists j :: 0 <= j < |links| && links[j].tag == tag
  }

  // What the loop over the labels keeps: labels already treated are substituted and gone,
  // the others occur where they did.
  ghost predicate Treated(s: string, links: seq<Link>, t: string) {
    Substituted(s, links, t) && forall j :: 0 <= j < |links| ==> Gone(t, links[j].tag)
  }

  ghost predicate SameOccurrences(s: string, t: string, tag: string) {
    forall o :: OccursAt(t, tag, o) <==> OccursAt(s, tag, o)
  }

  // Before a label is treated, it is either gone already or occurs where it did.
  ghost predicate Pending(s: string, links: seq<Link>, t: string, tag: string) {
    if HasTag(links, tag) then Gone(t, tag) else SameOccurrences(s, t, tag)
  }

  // A position inside an occurrence of a label treated before is left alone.
  lemma {:induction false} TreatedElsewhere(s: string, links: seq<Link>, cur: string, tag: string, p: int, k: int, other: string)
    requires |tag| == |other| == 40 && Pending(s, links, cur, tag) && Separate(s, other, tag)
    requires HasTag(links, other) && Inside(s, other, p, k)
    ensures !Covered(cur, tag, k)
  {
    forall r | OccursAt(cur, tag, r) ensures !(r <= k < r + 40) {
      assert !HasTag(links, tag) && OccursAt(s, tag, r);
      assert p != r;
    }
  }

  lemma {:induction false} TreatOne(s: string, links: seq<Link>, cur: string, link: Link, next: string)
    requires ValidLinks(links + [link]) && AllSeparate(s, links + [link]) && Treated(s, links, cur)
    requires Pending(s, links, cur, link.tag)
    requires IsLabel(link.tag) && |link.address| == 40 && Replaced(cur, link.tag, link.address, next)
    ensures Substituted(s, links + [link], next)
  {
    var all := links + [link];
    assert all[|links|] == link;
    forall i, p, k | 0 <= i < |all| && Inside(s, all[i].tag, p, k) ensures Holds(next, k, AddressFor(all, all[i].tag), k - p) {
      AddressForAppend(links, link, all[i].tag);
      if HasTag(links, all[i].tag) {
        var j :| 0 <= j < |links| && links[j].tag == all[i].tag;
        assert Inside(s, links[j].tag, p, k);
        assert Separate(s, all[i].tag, all[|links|].tag);
        TreatedElsewhere(s, links, cur, link.tag, p, k, all[i].tag);
      } else {
        assert all[i].tag == link.tag;
        assert OccursAt(cur, link.tag, p);
      }
    }
    forall k | 0 <= k < |s| && !CoveredByAny(s, all, k) ensures next[k] == s[k] {
      CoveredGrows(s, links, link, k);
      assert !Covered(cur, link.tag, k) by {
        forall r | OccursAt(cur, link.tag, r) ensures !(r <= k < r + 40) {
          assert OccursAt(s, link.tag, r);
        }
      }
    }
  }

  lemma {:induction false} CoveredGrows(s: string, links: seq<Link>, link: Link, k: int)
    ensures CoveredByAny(s, links, k) || Covered(s, link.tag, k) ==> CoveredByAny(s, links + [link], k)
  {
    var all := links + [link];
    assert all[|links|] == link;
    if CoveredByAny(s, links, k) {
      var i :| 0 <= i < |links| && Covered(s, links[i].tag, k);
      assert Covered(s, all[i].tag, k);
    }
  }

  // Replacing one label leaves the state of every other label as it was.
  lemma {:induction false} StillPending(s: string, links: seq<Link>, cur: string, link: Link, next: string, tag: string)
    requires IsLabel(tag) && IsLabel(link.tag) && Separate(s, link.tag, tag)
    requires Pending(s, links, cur, link.tag) && Pending(s, links, cur, tag) && Gone(next, link.tag)
    requires Separate(cur, link.tag, tag) && tag != link.tag ==> SameOccurrences(cur, next, tag)
    ensures Pending(s, links + [link], next, tag)
  {
    var all := links + [link];
    assert all[|links|] == link;
    assert HasTag(all, tag) <==> HasTag(links, tag) || link.tag == tag by {
      if HasTag(links, tag) {
        var j :| 0 <= j < |links| && links[j].tag == tag;
        assert all[j].tag == tag;
      }
    }
    assert Separate(cur, link.tag, tag) by {
      forall p, r | OccursAt(cur, link.tag, p) && OccursAt(cur, tag, r) ensures p == r || p + 40 <= r || r + 40 <= p {
        assert OccursAt(s, link.tag, p) && OccursAt(s, tag, r);
      }
    }
  }

  // Labels and addresses for which every loop ends.
  ghost predicate Replaceable(links: seq<Link>) {
    forall i :: 0 <= i < |links| ==> IsLabel(links[i].tag) && |links[i].address| == 40 && Stops(links[i].tag, links[i].address)
  }

  ghost predicate AllLiteral(links: seq<Link>) { forall i :: 0 <= i < |links| ==> Literal(links[i].address) }

  // The loops for all labels, one after the other, end with t.
  ghost predicate Linked(s: string, links: seq<Link>, t: string)
    decreases |links|
  {
    if links == [] then t == s
    else
      var last := links[|links| - 1];
      exists u :: Linked(s, links[..|links| - 1], u) && Yields(u, last.tag, last.address, t)
  }

  method ReplaceAll(bytecode: string, links: seq<Link>) returns (t: string)
    requires Replaceable(links)
    ensures Linked(bytecode, links, t)
    ensures AllLiteral(links) ==> |t| == |bytecode|
    ensures ValidLinks(links) && AllSeparate(bytecode, links) ==> Substituted(bytecode, links, t)
    ensures ValidLinks(links) && AllSeparate(bytecode, links) ==> forall j :: 0 <= j < |links| ==> Gone(t, links[j].tag)
  {
    hide Linked, Treating, AllSeparate, ValidLinks, Substituted, OthersKept, Gone, Replaced, Literal, Stops, Yields;
    t := bytecode;
    assert links[..0] == [];
    NoneTreated(bytecode, links);
    for i := 0 to |links|
      invariant Linked(bytecode, links[..i], t)
      invariant AllLiteral(links) ==> |t| == |bytecode|
      invariant Treating(bytecode, links, i, t)
    {
      var u := ReplaceLabel(t, links[i].tag, links[i].address);
      assert links[..i + 1] == links[..i] + [links[i]];
      LinkedMore(bytecode, links[..i], links[i], t, u);
      TreatingMore(bytecode, links, i, t, u);
      t := u;
    }
    assert links[..|links|] == links;
    TreatingDone(bytecode, links, t);
  }

  // What the loop over the labels keeps, in the case in which it substitutes them all.
  ghost predicate Treating(s: string, links: seq<Link>, i: nat, t: string)
    requires i <= |links|
  {
    ValidLinks(links) && AllSeparate(s, links) ==>
      Substituted(s, links[..i], t) && forall j :: 0 <= j < |links| ==> Pending(s, links[..i], t, links[j].tag)
  }

  lemma {:induction false} TreatingMore(s: string, links: seq<Link>, i: nat, t: string, u: string)
    requires i < |links| && Replaceable(links) && Treating(s, links, i, t) && Yields(t, links[i].tag, links[i].address, u)
    requires Literal(links[i].address) && NoUnderscore(links[i].address) ==>
      (Separate(t, links[i].tag, links[i].tag) ==> Replaced(t, links[i].tag, links[i].address, u)) && OthersKept(t, links[i].tag, u)
    ensures Treating(s, links, i + 1, u)
  {
    hide Substituted, Pending, Separate, AllSeparate, OthersKept, Gone, Replaced, Literal, NoUnderscore, Stops;
    assert links[..i + 1] == links[..i] + [links[i]];
    if ValidLinks(links) && AllSeparate(s, links) {
      LoopStep(s, links, i, t, u);
    }
  }

  lemma {:induction false} TreatingDone(s: string, links: seq<Link>, t: string)
    requires Treating(s, links, |links|, t)
    ensures ValidLinks(links) && AllSeparate(s, links) ==> Substituted(s, links, t)
    ensures ValidLinks(links) && AllSeparate(s, links) ==> forall j :: 0 <= j < |links| ==> Gone(t, links[j].tag)
  {
    hide Substituted, Pending, AllSeparate, Gone, ValidLinks;
    assert links[..|links|] == links;
    if ValidLinks(links) && AllSeparate(s, links) {
      forall j | 0 <= j < |links| ensures Gone(t, links[j].tag) {
        AllGone(s, links, t, j);
      }
    }
  }

  lemma {:induction false} NoneTreated(s: string, links: seq<Link>)
    ensures Linked(s, [], s) && Treating(s, links, 0, s)
  {
    assert links[..0] == [];
  }

  lemma {:induction false} AllGone(s: string, links: seq<Link>, t: string, j: nat)
    requires j < |links| && Pending(s, links, t, links[j].tag)
    ensures Gone(t, links[j].tag)
  {
    assert HasTag(links, links[j].tag);
  }

  lemma {:induction false} LinkedMore(s: string, links: seq<Link>, link: Link, t: string, u: string)
    requires Linked(s, links, t) && Yields(t, link.tag, link.address, u)
    ensures Linked(s, links + [link], u)
  {
    var all := links + [link];
    assert all[..|links|] == links && all[|links|] == link;
    assert Linked(s, all[..|all| - 1], t) && Yields(t, all[|all| - 1].tag, all[|all| - 1].address, u);
  }

  ghost predicate LinkingEnds(s: string, links: seq<Link>) {
    exists t :: Linked(s, links, t)
  }

  lemma {:induction false} LinkedExists(s: string, links: seq<Link>)
    requires Replaceable(links)
    ensures LinkingEnds(s, links)
    decreases |links|
  {
    if links == [] {
      assert Linked(s, links, s);
    } else {
      var front, last := links[..|links| - 1], links[|links| - 1];
      LinkedExists(s, front);
      var u :| Linked(s, front, u);
      LoopEnds(u, last.tag, last.address);
      var t :| Yields(u, last.tag, last.address, t);
      assert Linked(s, links, t);
    }
  }

  // The witness of one label contains no other ...
  lemma {:induction false} WitnessHoldsOne(tag: string, other: string)
    requires IsLabel(tag) && IsLabel(other) && tag != other
    ensures Gone(Witness(tag), other)
  {
    hide OccursAt;
    forall p ensures !OccursAt(Witness(tag), other, p) {
      if OccursAt(Witness(tag), other, p) {
        WitnessHolds(tag, other, p);
      }
    }
  }

  lemma {:induction false} WitnessHolds(tag: string, other: string, p: int)
    requires |tag| == 40 && IsLabel(other) && OccursAt(Witness(tag), other, p)
    ensures other == tag
  {
    hide Witness;
    var s := Witness(tag);
    WitnessParts(tag);
    assert s[p] == other[0] == '_' && s[p + 39] == other[39] == '_';
    assert p == 0 || p == 80;
  }

  lemma {:induction false} WitnessParts(tag: string)
    requires |tag| == 40
    ensures |Witness(tag)| == 120 && Witness(tag)[0..40] == tag && Witness(tag)[80..120] == tag
    ensures forall i :: 40 <= i < 80 ==> Witness(tag)[i] == '0'
  {
    hide OccursAt, Twice;
    forall i | 40 <= i < 80 ensures Witness(tag)[i] == '0' {
      assert Witness(tag)[i] == SEPARATOR[i - 40];
    }
  }

  // ... and so is left alone by the loops for other labels.
  lemma {:induction false} LinkedElsewhere(s: string, links: seq<Link>, t: string)
    requires forall i :: 0 <= i < |links| ==> Gone(s, links[i].tag)
    requires Linked(s, links, t)
    ensures t == s
    decreases |links|
  {
    hide Gone;
    if links != [] {
      var front, last := links[..|links| - 1], links[|links| - 1];
      var u :| Linked(s, front, u) && Yields(u, last.tag, last.address, t);
      LinkedElsewhere(s, front, u);
      var n :| After(u, last.tag, last.address, n) == t;
      AfterGone(s, last.tag, last.address, n);
    }
  }

  lemma {:induction false} LinkedPrefix(s: string, links: seq<Link>, t: string, i: nat) returns (u: string)
    requires Linked(s, links, t) && i <= |links|
    ensures Linked(s, links[..i], u)
    decreases |links|
  {
    if i == |links| {
      u := t;
      assert links[..i] == links;
    } else {
      var v :| Linked(s, links[..|links| - 1], v);
      u := LinkedPrefix(s, links[..|links| - 1], v, i);
      assert links[..|links| - 1][..i] == links[..i];
    }
  }

  // For different labels, linking ends on every bytecode exactly when every label stops
  // coming back.
  lemma {:induction false} LinkingEndsIff(links: seq<Link>)
    requires forall i :: 0 <= i < |links| ==>
      IsLabel(links[i].tag) && |links[i].address| == 40 && !OnlyBefore(links[i].address)
    requires forall i, j :: 0 <= i < j < |links| ==> links[i].tag != links[j].tag
    ensures (forall s :: LinkingEnds(s, links)) <==> forall i :: 0 <= i < |links| ==> Stops(links[i].tag, links[i].address)
  {
    hide Stops, Uses;
    if forall i :: 0 <= i < |links| ==> Stops(links[i].tag, links[i].address) {
      forall s ensures LinkingEnds(s, links) {
        LinkedExists(s, links);
      }
    } else {
      var i :| 0 <= i < |links| && !Stops(links[i].tag, links[i].address);
      NeverLinked(links, i);
    }
  }

  lemma {:induction false} NeverLinked(links: seq<Link>, i: nat)
    requires forall j :: 0 <= j < |links| ==> IsLabel(links[j].tag)
    requires i < |links| && |links[i].address| == 40 && !OnlyBefore(links[i].address) && !Stops(links[i].tag, links[i].address)
    requires forall j :: 0 <= j < i ==> links[j].tag != links[i].tag
    ensures !LinkingEnds(Witness(links[i].tag), links)
  {
    hide Yields, Stops, Uses, Witness;
    var s := Witness(links[i].tag);
    WitnessLoops(links[i].tag, links[i].address);
    forall j | 0 <= j < i ensures Gone(s, links[j].tag) {
      WitnessHoldsOne(links[i].tag, links[j].tag);
    }
    forall t ensures !Linked(s, links, t) {
      if Linked(s, links, t) {
        var u := LinkedPrefix(s, links, t, i + 1);
        assert links[..i + 1][..i] == links[..i];
        var v :| Linked(s, links[..i], v) && Yields(v, links[i].tag, links[i].address, u);
        LinkedElsewhere(s, links[..i], v);
        assert false;
      }
    }
    assert !LinkingEnds(s, links);
  }

  lemma {:induction false} LoopStep(s: string, links: seq<Link>, i: nat, t: string, u: string)
    requires ValidLinks(links) && AllSeparate(s, links) && i < |links|
    requires Substituted(s, links[..i], t)
    requires forall j :: 0 <= j < |links| ==> Pending(s, links[..i], t, links[j].tag)
    requires Gone(u, links[i].tag)
    requires Separate(t, links[i].tag, links[i].tag) ==> Replaced(t, links[i].tag, links[i].address, u)
    requires OthersKept(t, links[i].tag, u)
    ensures Substituted(s, links[..i] + [links[i]], u)
    ensures forall j :: 0 <= j < |links| ==> Pending(s, links[..i] + [links[i]], u, links[j].tag)
  {
    var link, prefix := links[i], links[..i];
    assert forall j :: 0 <= j < |prefix| ==> Gone(t, prefix[j].tag) by {
      forall j | 0 <= j < |prefix| ensures Gone(t, prefix[j].tag) {
        assert Pending(s, prefix, t, links[j].tag);
      }
    }
    assert ValidLinks(prefix + [link]) && AllSeparate(s, prefix + [link]) by {
      assert forall j :: 0 <= j < i + 1 ==> (prefix + [link])[j] == links[j];
    }
    assert Separate(t, link.tag, link.tag) by {
      forall p, r | OccursAt(t, link.tag, p) && OccursAt(t, link.tag, r) ensures p == r || p + 40 <= r || r + 40 <= p {
        assert Pending(s, prefix, t, links[i].tag);
        assert Separate(s, links[i].tag, links[i].tag);
      }
    }
    TreatOne(s, prefix, t, link, u);
    forall j | 0 <= j < |links| ensures Pending(s, prefix + [link], u, links[j].tag) {
      StillPending(s, prefix, t, link, u, links[j].tag);
    }
  }

  // The substitution is a function of the bytecode and of which address each label has, so
  // the order of the libraries does not matter.
  lemma {:induction false} OrderIrrelevant(s: string, a: seq<Link>, b: seq<Link>, t: string, u: string)
    requires Substituted(s, a, t) && Substituted(s, b, u)
    requires forall tag :: HasTag(a, tag) <==> HasTag(b, tag)
    requires forall tag :: HasTag(a, tag) ==> AddressFor(a, tag) == AddressFor(b, tag)
    ensures t == u
  {
    forall k | 0 <= k < |s| ensures t[k] == u[k] {
      if CoveredByAny(s, a, k) {
        var i :| 0 <= i < |a| && Covered(s, a[i].tag, k);
        var p :| OccursAt(s, a[i].tag, p) && p <= k < p + |a[i].tag|;
        assert HasTag(a, a[i].tag);
        var j :| 0 <= j < |b| && b[j].tag == a[i].tag;
        assert Inside(s, a[i].tag, p, k) && Inside(s, b[j].tag, p, k);
      } else {
        assert !CoveredByAny(s, b, k) by {
          forall j | 0 <= j < |b| ensures !Covered(s, b[j].tag, k) {
            assert HasTag(b, b[j].tag);
          }
        }
      }
    }
  }

  // --- the library table ----------------------------------------------------------------

  datatype Library = Direct(name: string, address: string) | File(name: string, libs: seq<(string, string)>)

  // An object as the sequence of its entries in insertion order, keys distinct.
  function Assign(table: seq<(string, string)>, key: string, value: string): seq<(string, string)> {
    if table == [] then [(key, value)]
    else if table[0].0 == key then [(key, value)] + table[1..]
    else [table[0]] + Assign(table[1..], key, value)
  }

  // The part of "file:lib" after the first colon, when both parts are there.
  function AfterColon(name: string): Option<string>
    decreases |name|
  {
    FindColon(name, 0)
  }

  function FindColon(name: string, i: nat): Option<string>
    decreases |name| - i
  {
    if i >= |name| then None
    else if name[i] == ':' then
      (if i > 0 && i + 1 < |name| && forall k :: i < k < |name| ==> !IsLineEnd(name[k]) then Some(name[i + 1..]) else None)
    else FindColon(name, i + 1)
  }

  // The first colon splits the name, when something is on both sides of it and no line ends
  // in what follows.
  lemma {:induction false} AfterColonIff(name: string, lib: string)
    ensures AfterColon(name) == Some(lib) <==>
      && lib != "" && OneLine(lib)
      && exists i: nat :: FirstColon(name, i) && i > 0 && lib == name[i + 1..]
  {
    FindColonIs(name, 0);
    if i: nat :| FirstColon(name, i) {
      OneFirstColon(name, i);
    }
  }

  ghost predicate FirstColon(name: string, i: nat) {
    i < |name| && name[i] == ':' && forall k :: 0 <= k < i ==> name[k] != ':'
  }

  lemma {:induction false} OneFirstColon(name: string, i: nat)
    requires FirstColon(name, i)
    ensures forall j: nat :: FirstColon(name, j) ==> j == i
  {
    forall j: nat | FirstColon(name, j) ensures j == i {
      assert !(i < j) && !(j < i);
    }
  }

  lemma {:induction false} FindColonIs(name: string, i: nat)
    requires forall k :: 0 <= k < i && k < |name| ==> name[k] != ':'
    ensures (forall j: nat :: !FirstColon(name, j)) ==> FindColon(name, i) == None
    ensures forall j: nat :: FirstColon(name, j) ==>
      FindColon(name, i) == if j > 0 && name[j + 1..] != "" && OneLine(name[j + 1..]) then Some(name[j + 1..]) else None
    decreases |name| - i
  {
    if i < |name| {
      if name[i] == ':' {
        assert FirstColon(name, i);
        OneFirstColon(name, i);
        OneLineFrom(name, i + 1);
      } else {
        FindColonIs(name, i + 1);
      }
    }
  }

  lemma {:induction false} OneLineFrom(name: string, i: nat)
    requires i <= |name|
    ensures OneLine(name[i..]) <==> forall k :: i <= k < |name| ==> !IsLineEnd(name[k])
  {
    if OneLine(name[i..]) {
      forall k | i <= k < |name| ensures !IsLineEnd(name[k]) {
        assert name[i..][k - i] == name[k];
      }
    }
  }

  ghost predicate OneLine(s: string) {
    forall k :: 0 <= k < |s| ==> !IsLineEnd(s[k])
  }

  predicate IsLineEnd(c: char) { c == '\n' || c == '\r' || c == '\U{2028}' || c == '\U{2029}' }

  function AssignFile(table: seq<(string, string)>, file: string, libs: seq<(string, string)>): seq<(string, string)> {
    if libs == [] then table
    else
      var before := AssignFile(table, file, libs[..|libs| - 1]);
      var (lib, address) := libs[|libs| - 1];
      Assign(Assign(before, lib, address), file + ":" + lib, address)
  }

  function AssignLibrary(table: seq<(string, string)>, library: Library): seq<(string, string)> {
    match library
    case File(name, libs) => AssignFile(table, name, libs)
    case Direct(name, address) =>
      var table' := match AfterColon(name) case Some(lib) => Assign(table, lib, address) case None => table;
      Assign(table', name, address)
  }

  function Complete(libraries: seq<Library>): seq<(string, string)> {
    if libraries == [] then []
    else AssignLibrary(Complete(libraries[..|libraries| - 1]), libraries[|libraries| - 1])
  }

  // The two labels of every library, the plain and the hashed one.
  function LinksOf(table: seq<(string, string)>, keccak: string -> string): (links: seq<Link>)
    requires forall i :: 0 <= i < |table| ==> AcceptedAddress(table[i].1)
    ensures |links| == 2 * |table|
    ensures (forall i :: 0 <= i < |table| ==> HexAddress(table[i].1)) ==> ValidLinks(links)
  {
    if table == [] then []
    else
      var (name, address) := table[|table| - 1];
      LinksOf(table[..|table| - 1], keccak)
        + [Link(LabelOf(name), Padded(address)), Link(LabelOf(HashPlaceholder(name, keccak)), Padded(address))]
  }

  // Every hexadecimal address is sound, and gives links without underscores.
  lemma {:induction false} HexIsSound(entry: (string, string), keccak: string -> string)
    requires HexAddress(entry.1)
    ensures Sound(entry, keccak)
  {
    hide LabelOf, HashPlaceholder, Padded;
    if AcceptedAddress(entry.1) {
      LiteralStops(LabelOf(entry.0), Padded(entry.1));
      LiteralStops(LabelOf(HashPlaceholder(entry.0, keccak)), Padded(entry.1));
    }
  }

  lemma {:induction false} LiteralStops(tag: string, address: string)
    requires IsLabel(tag) && |address| == 40 && Literal(address) && NoUnderscore(address)
    ensures Stops(tag, address)
  {
    forall c ensures !Uses(address, c) {
      LiteralUsesNone(address, c);
    }
    assert tag[0] == '_';
    StopsIff(tag, address);
  }

  lemma {:induction false} NoLinks(keccak: string -> string)
    ensures LinksOf([], keccak) == []
  {
  }

  lemma {:induction false} LinksGrow(table: seq<(string, string)>, i: nat, keccak: string -> string)
    requires i < |table| && forall k :: 0 <= k <= i ==> AcceptedAddress(table[k].1)
    ensures LinksOf(table[..i + 1], keccak) == LinksOf(table[..i], keccak)
      + [Link(LabelOf(table[i].0), Padded(table[i].1)), Link(LabelOf(HashPlaceholder(table[i].0, keccak)), Padded(table[i].1))]
  {
    assert table[..i + 1][..i] == table[..i];
  }

  lemma {:induction false} SoundLinks(table: seq<(string, string)>, keccak: string -> string)
    requires forall i :: 0 <= i < |table| ==> AcceptedAddress(table[i].1) && Sound(table[i], keccak)
    ensures Replaceable(LinksOf(table, keccak))
    decreases |table|
  {
    hide LabelOf, Padded, HashPlaceholder, AcceptedAddress, Stops, LinksOf;
    if table == [] {
      NoLinks(keccak);
    } else {
      SoundLinks(table[..|table| - 1], keccak);
      assert table[..|table|] == table;
      LinksGrow(table, |table| - 1, keccak);
    }
  }

  // The table filled in place, entry by entry.
  method BuildComplete(libraries: seq<Library>) returns (table: seq<(string, string)>)
    ensures table == Complete(libraries)
  {
    table := [];
    for i := 0 to |libraries|
      invariant table == Complete(libraries[..i])
    {
      ghost var before := table;
      assert libraries[..i + 1][..i] == libraries[..i];
      match libraries[i]
      case File(name, libs) =>
        for j := 0 to |libs|
          invariant table == AssignFile(before, name, libs[..j])
        {
          assert libs[..j + 1][..j] == libs[..j];
          table := Assign(table, libs[j].0, libs[j].1);
          table := Assign(table, name + ":" + libs[j].0, libs[j].1);
        }
        assert libs[..|libs|] == libs;
      case Direct(name, address) =>
        var parsed := AfterColon(name);
        if parsed.Some? {
          table := Assign(table, parsed.value, address);
        }
        table := Assign(table, name, address);
    }
    assert libraries[..|libraries|] == libraries;
  }

  // For this library every loop ends: with its address, padded, neither of its labels comes
  // back.
  ghost predicate Sound(entry: (string, string), keccak: string -> string) {
    AcceptedAddress(entry.1) ==>
      Stops(LabelOf(entry.0), Padded(entry.1)) && Stops(LabelOf(HashPlaceholder(entry.0, keccak)), Padded(entry.1))
  }

  // Linking: an address that is not accepted is an error, whatever comes first; otherwise
  // the labels of all libraries are treated, and when no address has an underscore and no
  // labels overlap, they are all substituted at once.
  method LinkBytecode(bytecode: string, libraries: seq<Library>, keccak: string -> string) returns (r: Option<string>)
    requires forall i :: 0 <= i < |Complete(libraries)| ==> Sound(Complete(libraries)[i], keccak)
    ensures r.Some? <==> forall i :: 0 <= i < |Complete(libraries)| ==> AcceptedAddress(Complete(libraries)[i].1)
    ensures r.Some? <==> forall name :: AddressOf(libraries, name).Some? ==>
      var a := AddressOf(libraries, name).value; 2 <= |a| <= 42 && a[0] == '0' && a[1] == 'x'
    ensures r.Some? ==> Linked(bytecode, LinksOf(Complete(libraries), keccak), r.value)
    ensures r.Some? && AllLiteral(LinksOf(Complete(libraries), keccak)) ==> |r.value| == |bytecode|
    ensures r.Some? && ValidLinks(LinksOf(Complete(libraries), keccak)) && AllSeparate(bytecode, LinksOf(Complete(libraries), keccak)) ==>
      Substituted(bytecode, LinksOf(Complete(libraries), keccak), r.value)
    ensures r.Some? && IsHash(keccak) && AllHex(libraries) && PlacesApart(bytecode, libraries, keccak) ==>
      PlacesLinked(bytecode, libraries, keccak, r.value)
  {
    hide Complete, LinksOf, LabelOf, Padded, HashPlaceholder, AcceptedAddress, HexAddress, AllSeparate,
      Substituted, ValidLinks, Replaceable, Linked, AllLiteral, Sound, AddressOf, PlacesApart, PlacesLinked, AllHex, IsHash;
    AcceptedIff(libraries);
    var table := BuildComplete(libraries);
    NoLinks(keccak);
    var links: seq<Link> := [];
    for i := 0 to |table|
      invariant forall k :: 0 <= k < i ==> AcceptedAddress(table[k].1)
      invariant links == LinksOf(table[..i], keccak)
    {
      if !AcceptedAddress(table[i].1) {
        return None;
      }
      LinksGrow(table, i, keccak);
      links := links + [Link(LabelOf(table[i].0), Padded(table[i].1)), Link(LabelOf(HashPlaceholder(table[i].0, keccak)), Padded(table[i].1))];
    }
    assert table[..|table|] == table;
    SoundLinks(table, keccak);
    var t := ReplaceAll(bytecode, links);
    if IsHash(keccak) && AllHex(libraries) && PlacesApart(bytecode, libraries, keccak) {
      ApartIsSeparate(bytecode, libraries, keccak);
      SubstitutionLinks(bytecode, libraries, keccak, t);
    }
    r := Some(t);
  }

  // --- the order of the libraries -------------------------------------------------------

  // All assignments that a library, and all libraries, make to the table.
  function EntriesOfFile(file: string, libs: seq<(string, string)>): seq<(string, string)> {
    if libs == [] then []
    else
      var (lib, address) := libs[|libs| - 1];
      EntriesOfFile(file, libs[..|libs| - 1]) + [(lib, address), (file + ":" + lib, address)]
  }

  function EntriesOf(library: Library): seq<(string, string)> {
    match library
    case File(name, libs) => EntriesOfFile(name, libs)
    case Direct(name, address) =>
      (match AfterColon(name) case Some(lib) => [(lib, address)] case None => []) + [(name, address)]
  }

  ghost predicate Assigned(libraries: seq<Library>, e: (string, string)) {
    exists l :: l in libraries && e in EntriesOf(l)
  }

  // The table holds nothing but assignments made, and a key for each of them.
  ghost predicate Covers(table: seq<(string, string)>, entries: iset<(string, string)>) {
    (forall e :: e in table ==> e in entries) && (forall e :: e in entries ==> HasKey(table, e.0))
  }

  ghost predicate HasKey(table: seq<(string, string)>, key: string) {
    exists i :: 0 <= i < |table| && table[i].0 == key
  }

  lemma {:induction false} AssignCovers(table: seq<(string, string)>, entries: iset<(string, string)>, key: string, value: string)
    requires Covers(table, entries)
    ensures Covers(Assign(table, key, value), entries + iset{(key, value)})
  {
    forall e | e in Assign(table, key, value) ensures e in entries || e == (key, value) {
      AssignHolds(table, key, value, e);
    }
    forall e | e in entries || e == (key, value) ensures HasKey(Assign(table, key, value), e.0) {
      AssignKeeps(table, key, value, e.0);
    }
  }

  lemma {:induction false} AssignHolds(table: seq<(string, string)>, key: string, value: string, e: (string, string))
    requires e in Assign(table, key, value)
    ensures e in table || e == (key, value)
    decreases |table|
  {
    if table != [] && table[0].0 != key && e != table[0] {
      assert e in Assign(table[1..], key, value);
      AssignHolds(table[1..], key, value, e);
    }
  }

  lemma {:induction false} AssignKeeps(table: seq<(string, string)>, key: string, value: string, other: string)
    requires HasKey(table, other) || other == key
    ensures HasKey(Assign(table, key, value), other)
    decreases |table|
  {
    var t := Assign(table, key, value);
    if table == [] || (other == key && table[0].0 == key) {
      assert t[0].0 == key;
    } else if table[0].0 == key {
      var i :| 0 <= i < |table| && table[i].0 == other;
      assert t[i].0 == other;
    } else if table[0].0 == other {
      assert t[0].0 == other;
    } else {
      if other != key {
        var i :| 0 <= i < |table| && table[i].0 == other;
        assert table[1..][i - 1].0 == other;
      }
      AssignKeeps(table[1..], key, value, other);
      var j :| 0 <= j < |Assign(table[1..], key, value)| && Assign(table[1..], key, value)[j].0 == other;
      assert t[j + 1].0 == other;
    }
  }

  // --- what the table says --------------------------------------------------------------

  // The value of a key.
  function Lookup(table: seq<(string, string)>, key: string): Option<string> {
    if table == [] then None else if table[0].0 == key then Some(table[0].1) else Lookup(table[1..], key)
  }

  // The value that the last of the assignments gave a key.
  function LastValue(entries: seq<(string, string)>, key: string): Option<string> {
    if entries == [] then None
    else if entries[|entries| - 1].0 == key then Some(entries[|entries| - 1].1)
    else LastValue(entries[..|entries| - 1], key)
  }

  // All assignments of all libraries, in order.
  function EntriesOfAll(libraries: seq<Library>): seq<(string, string)> {
    if libraries == [] then [] else EntriesOfAll(libraries[..|libraries| - 1]) + EntriesOf(libraries[|libraries| - 1])
  }

  // An assignment changes its own key only.
  lemma {:induction false} AssignLookup(table: seq<(string, string)>, key: string, value: string, other: string)
    ensures Lookup(Assign(table, key, value), other) == if other == key then Some(value) else Lookup(table, other)
    decreases |table|
  {
    if table != [] && table[0].0 != key {
      AssignLookup(table[1..], key, value, other);
    }
  }

  lemma {:induction false} LastAppend(entries: seq<(string, string)>, x: (string, string), key: string)
    ensures LastValue(entries + [x], key) == if x.0 == key then Some(x.1) else LastValue(entries, key)
  {
    assert (entries + [x])[..|entries|] == entries;
  }

  lemma {:induction false} LastConcat(a: seq<(string, string)>, b: seq<(string, string)>, key: string)
    ensures LastValue(a + b, key) == if LastValue(b, key).Some? then LastValue(b, key) else LastValue(a, key)
    decreases |b|
  {
    if b == [] {
      assert a + b == a;
    } else {
      var front, x := b[..|b| - 1], b[|b| - 1];
      assert a + b == (a + front) + [x];
      LastConcat(a, front, key);
      LastAppend(a + front, x, key);
    }
  }

  lemma {:induction false} LastTwo(x: (string, string), y: (string, string), key: string)
    ensures LastValue([x], key) == if x.0 == key then Some(x.1) else None
    ensures LastValue([x, y], key) == if y.0 == key then Some(y.1) else LastValue([x], key)
  {
    LastAppend([], x, key);
    LastAppend([x], y, key);
    assert [] + [x] == [x] && [x] + [y] == [x, y];
  }

  lemma {:induction false} FileLooksUp(table: seq<(string, string)>, file: string, libs: seq<(string, string)>, key: string)
    ensures Lookup(AssignFile(table, file, libs), key)
         == if LastValue(EntriesOfFile(file, libs), key).Some? then LastValue(EntriesOfFile(file, libs), key) else Lookup(table, key)
    decreases |libs|
  {
    hide Assign, LastValue, Lookup;
    if libs == [] {
      LastNone(key);
    } else {
      var front := libs[..|libs| - 1];
      var (lib, address) := libs[|libs| - 1];
      FileLooksUp(table, file, front, key);
      AssignLookup(AssignFile(table, file, front), lib, address, key);
      AssignLookup(Assign(AssignFile(table, file, front), lib, address), file + ":" + lib, address, key);
      LastConcat(EntriesOfFile(file, front), [(lib, address), (file + ":" + lib, address)], key);
      LastTwo((lib, address), (file + ":" + lib, address), key);
    }
  }

  lemma {:induction false} LastNone(key: string)
    ensures LastValue([], key) == None
  {
  }

  lemma {:induction false} LibraryLooksUp(table: seq<(string, string)>, library: Library, key: string)
    ensures Lookup(AssignLibrary(table, library), key)
         == if LastValue(EntriesOf(library), key).Some? then LastValue(EntriesOf(library), key) else Lookup(table, key)
  {
    hide Assign, LastValue, Lookup, AfterColon;
    match library
    case File(name, libs) => FileLooksUp(table, name, libs, key);
    case Direct(name, address) =>
      var x := (name, address);
      match AfterColon(name)
      case Some(lib) =>
        AssignLookup(table, lib, address, key);
        AssignLookup(Assign(table, lib, address), name, address, key);
        assert EntriesOf(library) == [(lib, address), x];
        LastTwo((lib, address), x, key);
      case None =>
        AssignLookup(table, name, address, key);
        assert EntriesOf(library) == [x];
        LastTwo(x, x, key);
  }

  // Every name has the address that the last assignment to it gave.
  lemma {:induction false} CompleteLooksUp(libraries: seq<Library>, key: string)
    ensures Lookup(Complete(libraries), key) == LastValue(EntriesOfAll(libraries), key)
    decreases |libraries|
  {
    hide AssignLibrary, EntriesOf;
    if libraries != [] {
      var front, last := libraries[..|libraries| - 1], libraries[|libraries| - 1];
      CompleteLooksUp(front, key);
      LibraryLooksUp(Complete(front), last, key);
      LastConcat(EntriesOfAll(front), EntriesOf(last), key);
    }
  }

  // The table has every key once, so all its rows are found by their keys.
  ghost predicate KeysOnce(table: seq<(string, string)>) {
    forall i, j :: 0 <= i < j < |table| ==> table[i].0 != table[j].0
  }

  lemma {:induction false} AssignKeysOnce(table: seq<(string, string)>, key: string, value: string)
    requires KeysOnce(table)
    ensures KeysOnce(Assign(table, key, value))
    decreases |table|
  {
    if table != [] && table[0].0 != key {
      AssignKeysOnce(table[1..], key, value);
      var rest := Assign(table[1..], key, value);
      forall j | 0 <= j < |rest| ensures rest[j].0 != table[0].0 {
        AssignHolds(table[1..], key, value, rest[j]);
      }
    }
  }

  lemma {:induction false} FileKeysOnce(table: seq<(string, string)>, file: string, libs: seq<(string, string)>)
    requires KeysOnce(table)
    ensures KeysOnce(AssignFile(table, file, libs))
    decreases |libs|
  {
    hide Assign, KeysOnce;
    if libs != [] {
      var front := libs[..|libs| - 1];
      var (lib, address) := libs[|libs| - 1];
      FileKeysOnce(table, file, front);
      AssignKeysOnce(AssignFile(table, file, front), lib, address);
      AssignKeysOnce(Assign(AssignFile(table, file, front), lib, address), file + ":" + lib, address);
    }
  }

  lemma {:induction false} CompleteKeysOnce(libraries: seq<Library>)
    ensures KeysOnce(Complete(libraries))
    decreases |libraries|
  {
    hide Assign, AfterColon, AssignFile;
    if libraries != [] {
      var table := Complete(libraries[..|libraries| - 1]);
      CompleteKeysOnce(libraries[..|libraries| - 1]);
      match libraries[|libraries| - 1]
      case File(name, libs) => FileKeysOnce(table, name, libs);
      case Direct(name, address) =>
        match AfterColon(name)
        case Some(lib) =>
          AssignKeysOnce(table, lib, address);
          AssignKeysOnce(Assign(table, lib, address), name, address);
        case None => AssignKeysOnce(table, name, address);
    }
  }

  lemma {:induction false} LookupRow(table: seq<(string, string)>, i: nat)
    requires KeysOnce(table) && i < |table|
    ensures Lookup(table, table[i].0) == Some(table[i].1)
    decreases |table|
  {
    if i > 0 { LookupRow(table[1..], i - 1); }
  }

  lemma {:induction false} LookupFinds(table: seq<(string, string)>, key: string) returns (i: nat)
    requires Lookup(table, key).Some?
    ensures i < |table| && table[i] == (key, Lookup(table, key).value)
    decreases |table|
  {
    i := 0;
    if table[0].0 != key {
      i := LookupFinds(table[1..], key);
      i := i + 1;
    }
  }

  // --- what linking makes of a bytecode -------------------------------------------------

  // The address that the last assignment to the name gave.
  function AddressOf(libraries: seq<Library>, name: string): Option<string> {
    LastValue(EntriesOfAll(libraries), name)
  }

  // At p stands a placeholder of the name, the plain or the hashed one.
  ghost predicate PlaceAt(s: string, p: int, name: string, keccak: string -> string) {
    && 0 <= p && p + 40 <= |s|
    && (Placeholder(name, s[p..p + 40]) || (|keccak(name)| >= 34 && HashedPlaceholder(keccak(name), s[p..p + 40])))
  }

  // No other name with a different address has a placeholder there.
  ghost predicate OnlyAddress(s: string, p: int, address: string, libraries: seq<Library>, keccak: string -> string) {
    forall name :: PlaceAt(s, p, name, keccak) && AddressOf(libraries, name).Some? ==> AddressOf(libraries, name) == Some(address)
  }

  // Every placeholder of a name gives way to the name's address, and nothing else changes.
  ghost predicate PlacesLinked(s: string, libraries: seq<Library>, keccak: string -> string, t: string) {
    && |t| == |s|
    && (forall p, name :: PlaceAt(s, p, name, keccak) && AddressOf(libraries, name).Some?
          && OnlyAddress(s, p, AddressOf(libraries, name).value, libraries, keccak)
          ==> PaddedFrom(AddressOf(libraries, name).value, t[p..p + 40]))
    && (forall k :: 0 <= k < |s| && !InPlace(s, libraries, keccak, k) ==> t[k] == s[k])
  }

  ghost predicate InPlace(s: string, libraries: seq<Library>, keccak: string -> string, k: int) {
    exists p, name :: PlaceAt(s, p, name, keccak) && AddressOf(libraries, name).Some? && p <= k < p + 40
  }

  // Placeholders do not overlap.
  ghost predicate PlacesApart(s: string, libraries: seq<Library>, keccak: string -> string) {
    forall p, q, a, b :: PlaceAt(s, p, a, keccak) && PlaceAt(s, q, b, keccak) && AddressOf(libraries, a).Some? && AddressOf(libraries, b).Some?
      ==> p == q || p + 40 <= q || q + 40 <= p
  }

  // A hash has 64 hexadecimal digits.
  ghost predicate IsHash(keccak: string -> string) { forall name :: |keccak(name)| == 64 }

  ghost predicate AllHex(libraries: seq<Library>) {
    forall name :: AddressOf(libraries, name).Some? ==> HexAddress(AddressOf(libraries, name).value)
  }

  lemma {:induction false} PlaceholderIff(name: string, tag: string)
    ensures Placeholder(name, tag) <==> tag == LabelOf(name)
  {
    if Placeholder(name, tag) {
      assert forall k :: 0 <= k < 40 ==> tag[k] == LabelOf(name)[k];
    }
  }

  lemma {:induction false} PlaceIff(s: string, p: int, name: string, keccak: string -> string)
    requires |keccak(name)| == 64
    ensures PlaceAt(s, p, name, keccak) <==> OccursAt(s, LabelOf(name), p) || OccursAt(s, LabelOf(HashPlaceholder(name, keccak)), p)
  {
    hide LabelOf, HashPlaceholder, HashedPlaceholder, Placeholder;
    if 0 <= p && p + 40 <= |s| {
      PlaceholderIff(name, s[p..p + 40]);
      HashedLabelIff(name, keccak, s[p..p + 40]);
    }
  }

  // The links are those of the names with an address.
  lemma {:induction false} LinkOfName(libraries: seq<Library>, keccak: string -> string, link: Link)
    requires forall i :: 0 <= i < |Complete(libraries)| ==> AcceptedAddress(Complete(libraries)[i].1)
    ensures link in LinksOf(Complete(libraries), keccak) <==> exists name :: NamesLink(libraries, name, keccak, link)
  {
    hide LabelOf, Padded, HashPlaceholder, AcceptedAddress, Complete, LinksOf, LastValue, Lookup;
    var table := Complete(libraries);
    LinksOfHolds(table, keccak, link);
    CompleteKeysOnce(libraries);
    if i :| 0 <= i < |table| && LinkOf(table[i], keccak, link) {
      LookupRow(table, i);
      CompleteLooksUp(libraries, table[i].0);
      assert NamesLink(libraries, table[i].0, keccak, link);
    }
    if name :| NamesLink(libraries, name, keccak, link) {
      CompleteLooksUp(libraries, name);
      var i := LookupFinds(table, name);
      assert LinkOf(table[i], keccak, link);
    }
  }

  ghost predicate NamesLink(libraries: seq<Library>, name: string, keccak: string -> string, link: Link) {
    var address := AddressOf(libraries, name);
    address.Some? && AcceptedAddress(address.value) && LinkOf((name, address.value), keccak, link)
  }

  lemma {:induction false} LinkPlace(s: string, p: int, libraries: seq<Library>, keccak: string -> string, link: Link)
    requires forall i :: 0 <= i < |Complete(libraries)| ==> AcceptedAddress(Complete(libraries)[i].1)
    requires IsHash(keccak) && link in LinksOf(Complete(libraries), keccak) && OccursAt(s, link.tag, p)
    ensures exists name :: PlaceAt(s, p, name, keccak) && NamesLink(libraries, name, keccak, link)
  {
    hide LabelOf, Padded, HashPlaceholder, AcceptedAddress, Complete, LinksOf, PlaceAt, OccursAt, AddressOf;
    LinkOfName(libraries, keccak, link);
    var name :| NamesLink(libraries, name, keccak, link);
    PlaceIff(s, p, name, keccak);
  }

  lemma {:induction false} PlaceLinked(s: string, libraries: seq<Library>, keccak: string -> string, t: string, p: int, name: string)
    requires forall i :: 0 <= i < |Complete(libraries)| ==> AcceptedAddress(Complete(libraries)[i].1)
    requires IsHash(keccak) && Substituted(s, LinksOf(Complete(libraries), keccak), t)
    requires PlaceAt(s, p, name, keccak) && AddressOf(libraries, name).Some?
    requires OnlyAddress(s, p, AddressOf(libraries, name).value, libraries, keccak)
    ensures PaddedFrom(AddressOf(libraries, name).value, t[p..p + 40])
  {
    hide LabelOf, HashPlaceholder, AcceptedAddress, Complete, LinksOf, OccursAt, AddressOf, PlaceAt, AddressFor, PaddedFrom;
    var links, address := LinksOf(Complete(libraries), keccak), AddressOf(libraries, name).value;
    PlaceIff(s, p, name, keccak);
    NameAccepted(libraries, name);
    var tag := if OccursAt(s, LabelOf(name), p) then LabelOf(name) else LabelOf(HashPlaceholder(name, keccak));
    var link := Link(tag, Padded(address));
    assert NamesLink(libraries, name, keccak, link);
    LinkOfName(libraries, keccak, link);
    var i :| 0 <= i < |links| && links[i] == link;
    AddressIsLinked(links, tag);
    var first := Link(tag, AddressFor(links, tag));
    LinkPlace(s, p, libraries, keccak, first);
    var other :| PlaceAt(s, p, other, keccak) && NamesLink(libraries, other, keccak, first);
    assert first.address == Padded(address);
    TakenFrom(s, links, t, i, p);
  }

  lemma {:induction false} NameAccepted(libraries: seq<Library>, name: string)
    requires forall i :: 0 <= i < |Complete(libraries)| ==> AcceptedAddress(Complete(libraries)[i].1)
    requires AddressOf(libraries, name).Some?
    ensures AcceptedAddress(AddressOf(libraries, name).value)
  {
    CompleteLooksUp(libraries, name);
    var i := LookupFinds(Complete(libraries), name);
  }

  lemma {:induction false} TakenFrom(s: string, links: seq<Link>, t: string, i: nat, p: int)
    requires i < |links| && OccursAt(s, links[i].tag, p) && |links[i].tag| == 40 && Substituted(s, links, t)
    requires |AddressFor(links, links[i].tag)| == 40
    ensures p + 40 <= |t| && t[p..p + 40] == AddressFor(links, links[i].tag)
  {
    hide AddressFor;
    forall k | p <= k < p + 40 ensures t[k] == AddressFor(links, links[i].tag)[k - p] {
      assert Inside(s, links[i].tag, p, k);
    }
  }

  lemma {:induction false} OutsideKept(s: string, libraries: seq<Library>, keccak: string -> string, t: string, k: nat)
    requires forall i :: 0 <= i < |Complete(libraries)| ==> AcceptedAddress(Complete(libraries)[i].1)
    requires IsHash(keccak) && Substituted(s, LinksOf(Complete(libraries), keccak), t)
    requires k < |s| && !InPlace(s, libraries, keccak, k)
    ensures |t| == |s| && t[k] == s[k]
  {
    hide LabelOf, HashPlaceholder, AcceptedAddress, Complete, LinksOf, AddressOf, PlaceAt, AddressFor, OccursAt;
    var links := LinksOf(Complete(libraries), keccak);
    forall i | 0 <= i < |links| ensures !Covered(s, links[i].tag, k) {
      forall p | OccursAt(s, links[i].tag, p) ensures !(p <= k < p + 40) {
        LinkPlace(s, p, libraries, keccak, links[i]);
      }
      LabelLength(libraries, keccak, links[i]);
    }
  }

  lemma {:induction false} LabelLength(libraries: seq<Library>, keccak: string -> string, link: Link)
    requires forall i :: 0 <= i < |Complete(libraries)| ==> AcceptedAddress(Complete(libraries)[i].1)
    requires link in LinksOf(Complete(libraries), keccak)
    ensures |link.tag| == 40
  {
    hide AcceptedAddress, Complete, LinksOf, AddressOf, HashPlaceholder;
    LinkOfName(libraries, keccak, link);
  }

  // In the terms of the bytecode: where it has a placeholder, linking puts the address.
  lemma {:induction false} SubstitutionLinks(s: string, libraries: seq<Library>, keccak: string -> string, t: string)
    requires forall i :: 0 <= i < |Complete(libraries)| ==> AcceptedAddress(Complete(libraries)[i].1)
    requires IsHash(keccak) && Substituted(s, LinksOf(Complete(libraries), keccak), t)
    ensures PlacesLinked(s, libraries, keccak, t)
  {
    hide AcceptedAddress, Complete, LinksOf, AddressOf, PaddedFrom, OnlyAddress, InPlace, Placeholder, HashedPlaceholder;
    forall p, name | PlaceAt(s, p, name, keccak) && AddressOf(libraries, name).Some?
        && OnlyAddress(s, p, AddressOf(libraries, name).value, libraries, keccak)
      ensures PaddedFrom(AddressOf(libraries, name).value, t[p..p + 40])
    {
      PlaceLinked(s, libraries, keccak, t, p, name);
    }
    forall k | 0 <= k < |s| && !InPlace(s, libraries, keccak, k) ensures t[k] == s[k] {
      OutsideKept(s, libraries, keccak, t, k);
    }
  }

  // Apart placeholders and hexadecimal addresses are what the loops need.
  lemma {:induction false} ApartIsSeparate(s: string, libraries: seq<Library>, keccak: string -> string)
    requires forall i :: 0 <= i < |Complete(libraries)| ==> AcceptedAddress(Complete(libraries)[i].1)
    requires IsHash(keccak) && AllHex(libraries) && PlacesApart(s, libraries, keccak)
    ensures ValidLinks(LinksOf(Complete(libraries), keccak)) && AllSeparate(s, LinksOf(Complete(libraries), keccak))
  {
    hide LabelOf, HashPlaceholder, AcceptedAddress, Complete, LinksOf, AddressOf, PlaceAt, OccursAt, HexAddress, ValidLinks, LastValue, Lookup;
    var links := LinksOf(Complete(libraries), keccak);
    forall i, j | 0 <= i < |links| && 0 <= j < |links| ensures Separate(s, links[i].tag, links[j].tag) {
      forall p, r | OccursAt(s, links[i].tag, p) && OccursAt(s, links[j].tag, r) ensures p == r || p + 40 <= r || r + 40 <= p {
        LinkPlace(s, p, libraries, keccak, links[i]);
        LinkPlace(s, r, libraries, keccak, links[j]);
      }
    }
    forall i | 0 <= i < |Complete(libraries)| ensures HexAddress(Complete(libraries)[i].1) {
      RowAddress(libraries, i);
    }
  }

  lemma {:induction false} RowAddress(libraries: seq<Library>, i: nat)
    requires i < |Complete(libraries)|
    ensures AddressOf(libraries, Complete(libraries)[i].0) == Some(Complete(libraries)[i].1)
  {
    hide Complete, LastValue, Lookup;
    CompleteKeysOnce(libraries);
    LookupRow(Complete(libraries), i);
    CompleteLooksUp(libraries, Complete(libraries)[i].0);
  }

  // The check accepts every name's address exactly when all begin with 0x and have at most 42
  // characters.
  lemma {:induction false} AcceptedIff(libraries: seq<Library>)
    ensures (forall i :: 0 <= i < |Complete(libraries)| ==> AcceptedAddress(Complete(libraries)[i].1)) <==>
      forall name :: AddressOf(libraries, name).Some? ==>
        var a := AddressOf(libraries, name).value; 2 <= |a| <= 42 && a[0] == '0' && a[1] == 'x'
  {
    hide Complete, AddressOf;
    var table := Complete(libraries);
    if forall i :: 0 <= i < |table| ==> AcceptedAddress(table[i].1) {
      forall name | AddressOf(libraries, name).Some? ensures AcceptedAddress(AddressOf(libraries, name).value) {
        NameAccepted(libraries, name);
      }
    } else {
      var i :| 0 <= i < |table| && !AcceptedAddress(table[i].1);
      RowAddress(libraries, i);
    }
  }

  ghost function Pairs(v: seq<(string, string)>): iset<(string, string)> { iset e | e in v }

  ghost function AllAssigned(libraries: seq<Library>): iset<(string, string)> { iset e | Assigned(libraries, e) }

  lemma {:induction false} PairsAppend(v: seq<(string, string)>, x: (string, string), y: (string, string))
    ensures Pairs([]) == iset{} && Pairs([x]) == iset{x}
    ensures Pairs(v + [x, y]) == Pairs(v) + iset{x} + iset{y}
  {
    assert forall e :: e in v + [x, y] <==> e in v || e == x || e == y;
  }

  lemma {:induction false} UnionAssociates(a: iset<(string, string)>, b: iset<(string, string)>, x: iset<(string, string)>, y: iset<(string, string)>)
    ensures a + (b + x + y) == a + b + x + y && a + iset{} == a
  {
  }

  lemma {:induction false} FileCovers(table: seq<(string, string)>, file: string, libs: seq<(string, string)>, entries: iset<(string, string)>)
    requires Covers(table, entries)
    ensures Covers(AssignFile(table, file, libs), entries + Pairs(EntriesOfFile(file, libs)))
    decreases |libs|
  {
    hide Covers, Assign, Pairs;
    if libs == [] {
      PairsAppend([], ("", ""), ("", ""));
      UnionAssociates(entries, iset{}, iset{}, iset{});
    } else {
      var front := libs[..|libs| - 1];
      var (lib, address) := libs[|libs| - 1];
      var x, y := (lib, address), (file + ":" + lib, address);
      var before := entries + Pairs(EntriesOfFile(file, front));
      FileCovers(table, file, front, entries);
      AssignCovers(AssignFile(table, file, front), before, lib, address);
      AssignCovers(Assign(AssignFile(table, file, front), lib, address), before + iset{x}, file + ":" + lib, address);
      PairsAppend(EntriesOfFile(file, front), x, y);
      UnionAssociates(entries, Pairs(EntriesOfFile(file, front)), iset{x}, iset{y});
    }
  }

  lemma {:induction false} LibraryCovers(table: seq<(string, string)>, library: Library, entries: iset<(string, string)>)
    requires Covers(table, entries)
    ensures Covers(AssignLibrary(table, library), entries + Pairs(EntriesOf(library)))
  {
    hide Covers, Assign, FindColon, Pairs;
    match library
    case File(name, libs) => FileCovers(table, name, libs, entries);
    case Direct(name, address) =>
      var x := (name, address);
      match AfterColon(name)
      case Some(lib) =>
        AssignCovers(table, entries, lib, address);
        AssignCovers(Assign(table, lib, address), entries + iset{(lib, address)}, name, address);
        assert EntriesOf(library) == [] + [(lib, address), x];
        PairsAppend([], (lib, address), x);
        UnionAssociates(entries, iset{}, iset{(lib, address)}, iset{x});
      case None =>
        AssignCovers(table, entries, name, address);
        assert EntriesOf(library) == [x];
        PairsAppend([], x, x);
  }

  lemma {:induction false} CompleteCovers(libraries: seq<Library>)
    ensures Covers(Complete(libraries), AllAssigned(libraries))
    decreases |libraries|
  {
    if libraries == [] {
      assert AllAssigned(libraries) == iset{};
    } else {
      hide Covers, AssignLibrary, EntriesOf, Pairs, AllAssigned;
      var front, last := libraries[..|libraries| - 1], libraries[|libraries| - 1];
      CompleteCovers(front);
      LibraryCovers(Complete(front), last, AllAssigned(front));
      AssignedLast(front, last);
      assert libraries == front + [last];
    }
  }

  lemma {:induction false} AssignedLast(front: seq<Library>, last: Library)
    ensures AllAssigned(front + [last]) == AllAssigned(front) + Pairs(EntriesOf(last))
  {
    hide EntriesOf;
    forall e ensures Assigned(front + [last], e) <==> Assigned(front, e) || e in EntriesOf(last) {
      assert last in front + [last];
    }
  }

  // What an assignment links.
  ghost predicate LinkOf(e: (string, string), keccak: string -> string, link: Link)
    requires AcceptedAddress(e.1)
  {
    link == Link(LabelOf(e.0), Padded(e.1)) || link == Link(LabelOf(HashPlaceholder(e.0, keccak)), Padded(e.1))
  }

  lemma {:induction false} LinksOfHolds(table: seq<(string, string)>, keccak: string -> string, link: Link)
    requires forall i :: 0 <= i < |table| ==> AcceptedAddress(table[i].1)
    ensures link in LinksOf(table, keccak) <==> exists i :: 0 <= i < |table| && LinkOf(table[i], keccak, link)
    decreases |table|
  {
    hide LabelOf, Padded, HashPlaceholder, AcceptedAddress, LinksOf;
    if table == [] {
      NoLinks(keccak);
    } else {
      var front, last := table[..|table| - 1], table[|table| - 1];
      LinksOfHolds(front, keccak, link);
      assert table[..|table|] == table;
      LinksGrow(table, |table| - 1, keccak);
      InLast(LinksOf(front, keccak), Link(LabelOf(last.0), Padded(last.1)), Link(LabelOf(HashPlaceholder(last.0, keccak)), Padded(last.1)), link);
      assert forall i :: 0 <= i < |front| ==> front[i] == table[i];
    }
  }

  lemma {:induction false} InLast(v: seq<Link>, x: Link, y: Link, link: Link)
    ensures link in v + [x, y] <==> link in v || link == x || link == y
  {
  }

  // All assigned addresses are accepted, and no label is assigned two different ones.
  ghost predicate Unambiguous(libraries: seq<Library>, keccak: string -> string) {
    && (forall e :: Assigned(libraries, e) ==> AcceptedAddress(e.1))
    && (forall e, f, x, y :: Assigned(libraries, e) && Assigned(libraries, f) && LinkOf(e, keccak, x) && LinkOf(f, keccak, y) && x.tag == y.tag ==> x == y)
  }

  lemma {:induction false} LinksOfComplete(libraries: seq<Library>, keccak: string -> string, link: Link)
    requires Unambiguous(libraries, keccak)
    ensures forall i :: 0 <= i < |Complete(libraries)| ==> AcceptedAddress(Complete(libraries)[i].1)
    ensures link in LinksOf(Complete(libraries), keccak) <==> exists e :: Assigned(libraries, e) && LinkOf(e, keccak, link)
  {
    hide LabelOf, Padded, HashPlaceholder, AcceptedAddress, Complete, Assigned, LinksOf;
    var table := Complete(libraries);
    CompleteCovers(libraries);
    forall i | 0 <= i < |table| ensures Assigned(libraries, table[i]) {
      assert table[i] in table;
    }
    LinksOfHolds(table, keccak, link);
    if exists e :: Assigned(libraries, e) && LinkOf(e, keccak, link) {
      var e :| Assigned(libraries, e) && LinkOf(e, keccak, link);
      assert HasKey(table, e.0);
      var i :| 0 <= i < |table| && table[i].0 == e.0;
      SameKeySameLink(libraries, keccak, e, table[i], link);
    }
  }

  lemma {:induction false} SameKeySameLink(libraries: seq<Library>, keccak: string -> string, e: (string, string), f: (string, string), link: Link)
    requires Unambiguous(libraries, keccak) && Assigned(libraries, e) && Assigned(libraries, f) && e.0 == f.0
    requires LinkOf(e, keccak, link)
    ensures LinkOf(f, keccak, link)
  {
    hide LabelOf, Padded, HashPlaceholder, AcceptedAddress, Assigned;
    var x, y := Link(LabelOf(f.0), Padded(f.1)), Link(LabelOf(HashPlaceholder(f.0, keccak)), Padded(f.1));
    assert LinkOf(f, keccak, x) && LinkOf(f, keccak, y);
  }

  // The same libraries in another order, or repeated, give the same bytecode, provided that
  // no label is assigned two different addresses.
  lemma {:induction false} LibrariesUnordered(s: string, a: seq<Library>, b: seq<Library>, keccak: string -> string, t: string, u: string)
    requires Unambiguous(a, keccak) && forall l :: l in a <==> l in b
    ensures forall i :: 0 <= i < |Complete(a)| ==> AcceptedAddress(Complete(a)[i].1)
    ensures forall i :: 0 <= i < |Complete(b)| ==> AcceptedAddress(Complete(b)[i].1)
    ensures forall link :: link in LinksOf(Complete(a), keccak) <==> link in LinksOf(Complete(b), keccak)
    ensures Substituted(s, LinksOf(Complete(a), keccak), t) && Substituted(s, LinksOf(Complete(b), keccak), u) ==> t == u
  {
    hide LabelOf, Padded, HashPlaceholder, AcceptedAddress, Complete, LinksOf, Substituted, EntriesOf, AddressFor;
    forall e ensures Assigned(a, e) <==> Assigned(b, e) {
    }
    assert Unambiguous(b, keccak);
    LinksOfComplete(a, keccak, Link("", ""));
    LinksOfComplete(b, keccak, Link("", ""));
    forall link ensures link in LinksOf(Complete(a), keccak) <==> link in LinksOf(Complete(b), keccak) {
      LinksOfComplete(a, keccak, link);
      LinksOfComplete(b, keccak, link);
    }
    if Substituted(s, LinksOf(Complete(a), keccak), t) && Substituted(s, LinksOf(Complete(b), keccak), u) {
      forall x, y | x in LinksOf(Complete(a), keccak) && y in LinksOf(Complete(a), keccak) && x.tag == y.tag ensures x == y {
        LinksOfComplete(a, keccak, x);
        LinksOfComplete(a, keccak, y);
      }
      SameLinks(s, LinksOf(Complete(a), keccak), LinksOf(Complete(b), keccak), t, u);
    }
  }

  lemma {:induction false} SameLinks(s: string, a: seq<Link>, b: seq<Link>, t: string, u: string)
    requires Substituted(s, a, t) && Substituted(s, b, u)
    requires forall link :: link in a <==> link in b
    requires forall x, y :: x in a && y in a && x.tag == y.tag ==> x == y
    ensures t == u
  {
    hide Substituted, AddressFor;
    forall tag ensures HasTag(a, tag) <==> HasTag(b, tag) {
      if HasTag(a, tag) {
        var j :| 0 <= j < |a| && a[j].tag == tag;
        assert a[j] in b;
      }
      if HasTag(b, tag) {
        var j :| 0 <= j < |b| && b[j].tag == tag;
        assert b[j] in a;
      }
    }
    forall tag | HasTag(a, tag) ensures AddressFor(a, tag) == AddressFor(b, tag) {
      AddressIsLinked(a, tag);
      AddressIsLinked(b, tag);
      assert Link(tag, AddressFor(b, tag)) in a;
    }
    OrderIrrelevant(s, a, b, t, u);
  }

  lemma {:induction false} AddressIsLinked(links: seq<Link>, tag: string)
    requires HasTag(links, tag)
    ensures Link(tag, AddressFor(links, tag)) in links
    decreases |links|
  {
    var j :| 0 <= j < |links| && links[j].tag == tag;
    if links[0].tag != tag {
      assert links[1..][j - 1].tag == tag;
      AddressIsLinked(links[1..], tag);
    } else {
      assert Link(tag, AddressFor(links, tag)) == links[0];
    }
  }
}
