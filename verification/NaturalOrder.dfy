/** The version order of mother/release/order.go and the consumers that rely on it. */
module NaturalOrder {
  import opened Wrappers

  // The largest value of Go's int on the 64-bit platforms the mother is built for.
  const MAX_INT := 0x7FFF_FFFF_FFFF_FFFF

  predicate IsDigit(c: char) {
    '0' <= c <= '9'
  }

  ghost predicate AllDigits(s: string) {
    forall i :: 0 <= i < |s| ==> IsDigit(s[i])
  }

  /** Length of the leading run whose characters are digits (or are not). */
  function RunLength(s: string, digits: bool): (n: nat)
    ensures n <= |s|
    ensures forall i :: 0 <= i < n ==> IsDigit(s[i]) == digits
    ensures n < |s| ==> IsDigit(s[n]) != digits
  {
    if s == "" || IsDigit(s[0]) != digits then 0 else 1 + RunLength(s[1..], digits)
  }

  function Chunk(s: string): (c: string)
    requires s != ""
    ensures c != "" && c[0] == s[0]
    ensures forall i :: 0 <= i < |c| ==> IsDigit(c[i]) == IsDigit(s[0])
  {
    s[..RunLength(s, IsDigit(s[0]))]
  }

  function Rest(s: string): (r: string)
    requires s != ""
    ensures Chunk(s) + r == s && |r| < |s|
  {
    s[RunLength(s, IsDigit(s[0]))..]
  }

  method LeadingChunk(s: string) returns (chunk: string, rest: string)
    requires s != ""
    ensures chunk + rest == s && chunk != ""
    ensures forall i :: 0 <= i < |chunk| ==> IsDigit(chunk[i]) == IsDigit(s[0])
    ensures rest != "" ==> IsDigit(rest[0]) != IsDigit(s[0])
    ensures chunk == Chunk(s) && rest == Rest(s)
  {
    var digits := IsDigit(s[0]);
    var i := 0;
    while i < |s|
      invariant i <= |s|
      invariant forall j :: 0 <= j < i ==> IsDigit(s[j]) == digits
    {
      if IsDigit(s[i]) != digits {
        return s[..i], s[i..];
      }
      i := i + 1;
    }
    return s, "";
  }

  /** The number a run of decimal digits denotes. */
  function Value(s: string): nat {
    if s == "" then 0
    else 10 * Value(s[..|s| - 1]) + (if IsDigit(s[|s| - 1]) then s[|s| - 1] as int - '0' as int else 0)
  }

  /** strconv.Atoi on a chunk: a chunk holds digits only or no digit at all. */
  function Atoi(chunk: string): Option<nat> {
    if chunk != "" && IsDigit(chunk[0]) && Value(chunk) <= MAX_INT then Some(Value(chunk)) else None
  }

  /** Go's string comparison, character by character. */
  predicate LexLess(a: string, b: string) {
    if a == "" || b == "" then a == "" && b != ""
    else if a[0] != b[0] then a[0] < b[0]
    else LexLess(a[1..], b[1..])
  }

  predicate ChunkLess(p: string, q: string) {
    if Atoi(p).Some? && Atoi(q).Some? then Atoi(p).value < Atoi(q).value else LexLess(p, q)
  }

  /** What naturalLess answers, chunk by chunk. */
  predicate Less(a: string, b: string) {
    if a == "" || b == "" then |a| < |b|
    else if Chunk(a) != Chunk(b) then ChunkLess(Chunk(a), Chunk(b))
    else Less(Rest(a), Rest(b))
  }

  method NaturalLess(a0: string, b0: string) returns (less: bool)
    ensures less == Less(a0, b0)
  {
    var a, b := a0, b0;
    while a != "" && b != ""
      invariant Less(a, b) == Less(a0, b0)
      decreases |a|
    {
      var an, arest := LeadingChunk(a);
      var bn, brest := LeadingChunk(b);
      if an != bn {
        var ai, bi := Atoi(an), Atoi(bn);
        if ai.Some? && bi.Some? {
          return ai.value < bi.value;
        }
        return LexLess(an, bn);
      }
      a, b := arest, brest;
    }
    return |a| < |b|;
  }

  // ----- Domain -----

  predicate Fits(s: string)
    decreases |s|
  {
    s != "" ==> (IsDigit(s[0]) ==> Value(Chunk(s)) <= MAX_INT) && Fits(Rest(s))
  }

  predicate NoLeadingZero(s: string)
    decreases |s|
  {
    s != "" ==> (s[0] == '0' ==> Chunk(s) == "0") && NoLeadingZero(Rest(s))
  }

  /** Every digit run has at most n digits. */
  predicate RunsWithin(s: string, n: nat)
    decreases |s|
  {
    s != "" ==> (IsDigit(s[0]) ==> |Chunk(s)| <= n) && RunsWithin(Rest(s), n)
  }

  // ----- Chunks -----

  lemma {:induction false} LexTrichotomy(a: string, b: string)
    ensures !LexLess(a, a)
    ensures a != b ==> LexLess(a, b) != LexLess(b, a)
    decreases |a|
  {
    if a != "" && b != "" && a[0] == b[0] {
      assert a == [a[0]] + a[1..] && b == [b[0]] + b[1..];
      LexTrichotomy(a[1..], b[1..]);
    } else if a != "" {
      LexTrichotomy(a[1..], a[1..]);
    }
  }

  lemma {:induction false} LexTransitive(a: string, b: string, c: string)
    requires LexLess(a, b) && LexLess(b, c)
    ensures LexLess(a, c)
    decreases |a|
  {
    if a != "" && a[0] == b[0] == c[0] {
      LexTransitive(a[1..], b[1..], c[1..]);
    }
  }

  /** A run without a leading zero denotes at least the power of ten its length says. */
  lemma {:induction false} CanonicalPositive(p: string)
    requires p != "" && AllDigits(p) && p[0] != '0'
    ensures Value(p) >= 1 && (|p| > 1 ==> Value(p) >= 10)
  {
    if |p| > 1 {
      CanonicalPositive(p[..|p| - 1]);
    }
  }

  lemma {:induction false} CanonicalInjective(p: string, q: string)
    requires p != "" && q != "" && AllDigits(p) && AllDigits(q)
    requires (p[0] == '0' ==> p == "0") && (q[0] == '0' ==> q == "0")
    requires Value(p) == Value(q)
    ensures p == q
    decreases |p|
  {
    if p[0] != '0' { CanonicalPositive(p); }
    if q[0] != '0' { CanonicalPositive(q); }
    var pl, ql := p[|p| - 1] as int - '0' as int, q[|q| - 1] as int - '0' as int;
    assert Value(p) == 10 * Value(p[..|p| - 1]) + pl && Value(q) == 10 * Value(q[..|q| - 1]) + ql;
    assert pl == ql && Value(p[..|p| - 1]) == Value(q[..|q| - 1]);
    assert p == p[..|p| - 1] + [p[|p| - 1]] && q == q[..|q| - 1] + [q[|q| - 1]];
    if |p| > 1 && |q| > 1 {
      CanonicalInjective(p[..|p| - 1], q[..|q| - 1]);
    }
  }

  lemma ChunkLessTransitive(p: string, q: string, r: string)
    requires p != "" && q != "" && r != ""
    requires IsDigit(p[0]) ==> Atoi(p).Some?
    requires IsDigit(q[0]) ==> Atoi(q).Some?
    requires IsDigit(r[0]) ==> Atoi(r).Some?
    requires ChunkLess(p, q) && ChunkLess(q, r)
    ensures ChunkLess(p, r)
  {
    if !(IsDigit(p[0]) && IsDigit(q[0])) && !(IsDigit(q[0]) && IsDigit(r[0])) {
      LexTransitive(p, q, r);
    }
  }

  // ----- The order -----

  lemma {:induction false} Irreflexive(a: string)
    ensures !Less(a, a)
    decreases |a|
  {
    if a != "" { Irreflexive(Rest(a)); }
  }

  /** With every run inside int, the comparator is transitive, leading zeros or not. */
  lemma {:induction false} Transitive(a: string, b: string, c: string)
    requires Fits(a) && Fits(b) && Fits(c)
    requires Less(a, b) && Less(b, c)
    ensures Less(a, c)
    decreases |a|
  {
    if a != "" && b != "" {
      if Chunk(a) == Chunk(b) == Chunk(c) {
        Transitive(Rest(a), Rest(b), Rest(c));
      } else if Chunk(a) != Chunk(b) && Chunk(b) != Chunk(c) {
        ChunkLessTransitive(Chunk(a), Chunk(b), Chunk(c));
        if Chunk(a) == Chunk(c) {
          LexTrichotomy(Chunk(a), Chunk(a));
        }
      }
    }
  }

  /** The first chunks where a and b part are runs of one value written with different zeros. */
  ghost predicate ZeroClash(a: string, b: string)
    decreases |a|
  {
    a != "" && b != "" &&
    if Chunk(a) == Chunk(b) then ZeroClash(Rest(a), Rest(b))
    else Atoi(Chunk(a)).Some? && Atoi(Chunk(a)) == Atoi(Chunk(b))
  }

  /** Exactly when two different strings tie. */
  lemma {:induction false} TieExactly(a: string, b: string)
    ensures (a != b && !Less(a, b) && !Less(b, a)) <==> ZeroClash(a, b)
    ensures !(Less(a, b) && Less(b, a))
    decreases |a|
  {
    if a != "" && b != "" {
      assert a == Chunk(a) + Rest(a) && b == Chunk(b) + Rest(b);
      if Chunk(a) == Chunk(b) {
        TieExactly(Rest(a), Rest(b));
      } else {
        LexTrichotomy(Chunk(a), Chunk(b));
      }
    }
  }

  /** A clash needs a leading zero on one side: runs written without one name their value uniquely. */
  lemma {:induction false} ClashNeedsLeadingZero(a: string, b: string)
    requires ZeroClash(a, b)
    ensures !NoLeadingZero(a) || !NoLeadingZero(b)
    decreases |a|
  {
    if Chunk(a) == Chunk(b) {
      ClashNeedsLeadingZero(Rest(a), Rest(b));
    } else if NoLeadingZero(a) && NoLeadingZero(b) {
      CanonicalInjective(Chunk(a), Chunk(b));
    }
  }

  /** Exactly one of a < b, a == b, b < a. */
  lemma Trichotomy(a: string, b: string)
    requires NoLeadingZero(a) && NoLeadingZero(b)
    ensures a != b ==> Less(a, b) != Less(b, a)
    ensures a == b ==> !Less(a, b)
  {
    TieExactly(a, b);
    Irreflexive(a);
    if ZeroClash(a, b) {
      ClashNeedsLeadingZero(a, b);
    }
  }

  // ----- Which order it is -----

  /** The text starting at u does not run on from the last character of p. */
  predicate Parts(p: string, u: string) {
    p == "" || u == "" || IsDigit(p[|p| - 1]) != IsDigit(u[0])
  }

  lemma {:induction false} RunUpTo(s: string, digits: bool, n: nat)
    requires n <= |s| && (forall i :: 0 <= i < n ==> IsDigit(s[i]) == digits)
    requires n < |s| ==> IsDigit(s[n]) != digits
    ensures RunLength(s, digits) == n
  {
    if n > 0 { RunUpTo(s[1..], digits, n - 1); }
  }

  /** Text put behind p leaves p's first chunk alone, unless p is one run and the text runs on. */
  lemma ChunkOfConcat(p: string, u: string)
    requires p != "" && (Parts(p, u) || Rest(p) != "")
    ensures Chunk(p + u) == Chunk(p) && Rest(p + u) == Rest(p) + u
  {
    var n := |Chunk(p)|;
    assert Rest(p) == p[n..] && (n < |p| ==> p[n] == Rest(p)[0]);
    RunUpTo(p + u, IsDigit(p[0]), n);
    assert (p + u)[..n] == p[..n] && (p + u)[n..] == p[n..] + u;
  }

  /** A common part that ends where a run ends does not count. */
  lemma {:induction false} CommonPart(p: string, u: string, v: string)
    requires p == "" || (u != "" && v != "" && Parts(p, u) && Parts(p, v))
    ensures Less(p + u, p + v) == Less(u, v)
    decreases |p|
  {
    if p == "" {
      assert p + u == u && p + v == v;
    } else {
      ChunkOfConcat(p, u);
      ChunkOfConcat(p, v);
      LastOfRest(p);
      CommonPart(Rest(p), u, v);
    }
  }

  lemma LastOfRest(p: string)
    requires p != ""
    ensures Rest(p) != "" ==> Rest(p)[|Rest(p)| - 1] == p[|p| - 1]
  {
    assert p == Chunk(p) + Rest(p);
  }

  /** Where d is the run that d + x starts with. */
  lemma RunThenText(d: string, x: string)
    requires d != "" && (forall i :: 0 <= i < |d| ==> IsDigit(d[i]) == IsDigit(d[0]))
    requires x != "" ==> IsDigit(x[0]) != IsDigit(d[0])
    ensures Chunk(d + x) == d && Rest(d + x) == x
  {
    RunUpTo(d + x, IsDigit(d[0]), |d|);
    assert (d + x)[..|d|] == d && (d + x)[|d|..] == x;
  }

  /** A digit run and what follows it. */
  ghost predicate NumberThenText(d: string, x: string) {
    d != "" && AllDigits(d) && (x != "" ==> !IsDigit(x[0]))
  }

  lemma TwoRuns(p: string, d: string, x: string, e: string, y: string)
    requires (p != "" ==> !IsDigit(p[|p| - 1])) && NumberThenText(d, x) && NumberThenText(e, y) && d != e
    ensures Less(p + (d + x), p + (e + y)) == ChunkLess(d, e)
  {
    RunThenText(d, x);
    RunThenText(e, y);
    CommonPart(p, d + x, e + y);
  }

  lemma Reassociate(p: string, d: string, x: string)
    ensures p + d + x == p + (d + x)
  {
  }

  /** Digit runs that fit int decide by the number they denote, whatever comes behind them. */
  lemma NumbersDecide(p: string, d: string, x: string, e: string, y: string)
    requires (p != "" ==> !IsDigit(p[|p| - 1])) && NumberThenText(d, x) && NumberThenText(e, y)
    requires Value(d) < Value(e) <= MAX_INT
    ensures Less(p + d + x, p + e + y) && !Less(p + e + y, p + d + x)
  {
    TwoRuns(p, d, x, e, y);
    TwoRuns(p, e, y, d, x);
    Reassociate(p, d, x);
    Reassociate(p, e, y);
  }

  /** Runs of which one does not fit int decide as text. */
  lemma HugeRunsDecideAsText(p: string, d: string, x: string, e: string, y: string)
    requires (p != "" ==> !IsDigit(p[|p| - 1])) && NumberThenText(d, x) && NumberThenText(e, y) && d != e
    requires Value(d) > MAX_INT || Value(e) > MAX_INT
    ensures Less(p + d + x, p + e + y) == LexLess(d, e)
  {
    TwoRuns(p, d, x, e, y);
    Reassociate(p, d, x);
    Reassociate(p, e, y);
  }

  lemma {:induction false} LexFirstDifference(w: string, a: string, b: string)
    requires a == "" || b == "" || a[0] != b[0]
    ensures LexLess(w + a, w + b) == if a == "" || b == "" then a == "" && b != "" else a[0] < b[0]
  {
    if w == "" {
      assert w + a == a && w + b == b;
    } else {
      assert (w + a)[1..] == w[1..] + a && (w + b)[1..] == w[1..] + b;
      LexFirstDifference(w[1..], a, b);
    }
  }

  /** Where p's trailing text begins: behind its last digit. */
  lemma TrailingText(p: string) returns (q: string, w: string)
    ensures p == q + w && (forall i :: 0 <= i < |w| ==> !IsDigit(w[i])) && (q != "" ==> IsDigit(q[|q| - 1]))
  {
    var n := |p|;
    while n > 0 && !IsDigit(p[n - 1])
      invariant 0 <= n <= |p| && forall i :: n <= i < |p| ==> !IsDigit(p[i])
    {
      n := n - 1;
    }
    q, w := p[..n], p[n..];
  }

  /** The run of text at the front of u. */
  lemma TextChunk(w: string, u: string) returns (more: string)
    requires u != "" && !IsDigit(u[0]) && forall i :: 0 <= i < |w| ==> !IsDigit(w[i])
    ensures Chunk(w + u) == w + more && more != "" && more[0] == u[0]
  {
    more := Chunk(u);
    assert u == more + Rest(u) && w + u == (w + more) + Rest(u);
    assert (w + more)[0] == if w == "" then more[0] else w[0];
    RunThenText(w + more, Rest(u));
  }

  /** Where two strings part at two characters that are no digits, the smaller character decides. */
  lemma TextDecides(p: string, c: char, x: string, e: char, y: string)
    requires !IsDigit(c) && !IsDigit(e) && c < e
    ensures Less(p + [c] + x, p + [e] + y) && !Less(p + [e] + y, p + [c] + x)
  {
    var q, w := TrailingText(p);
    var u, v := [c] + x, [e] + y;
    var more := TextChunk(w, u);
    var most := TextChunk(w, v);
    LexFirstDifference(w, more, most);
    LexFirstDifference(w, most, more);
    assert p + [c] + x == q + (w + u) && p + [e] + y == q + (w + v);
    CommonPart(q, w + u, w + v);
    CommonPart(q, w + v, w + u);
  }

  /** Text stands before text that goes on with a digit; and at the very front a digit is compared as a character. */
  lemma DigitAgainstText(p: string, c: char, x: string, e: char, y: string)
    requires IsDigit(c) && !IsDigit(e) && (p == "" || !IsDigit(p[|p| - 1]))
    ensures Less(p + [c] + x, p + [e] + y) <==> p != "" || c < e
    ensures Less(p + [e] + y, p + [c] + x) <==> p == "" && e < c
  {
    var q, w := TrailingText(p);
    var u, v := [c] + x, [e] + y;
    var most := TextChunk(w, v);
    assert p + [c] + x == q + (w + u) && p + [e] + y == q + (w + v);
    CommonPart(q, w + u, w + v);
    CommonPart(q, w + v, w + u);
    if w != "" {
      RunThenText(w, u);
      assert w + "" == w;
      LexFirstDifference(w, "", most);
      LexFirstDifference(w, most, "");
    } else {
      assert w + u == u && w + v == v && q == "" && p == "";
    }
  }

  lemma {:induction false} LongerRunIsMore(d: string, f: string)
    requires d != "" && d[0] != '0' && AllDigits(d) && AllDigits(f) && f != ""
    ensures Value(d) < Value(d + f)
    decreases |f|
  {
    var n := |f| - 1;
    assert (d + f)[..|d + f| - 1] == d + f[..n] && (d + f)[|d + f| - 1] == f[n];
    if n > 0 {
      LongerRunIsMore(d, f[..n]);
    } else {
      CanonicalPositive(d);
      assert d + f[..n] == d;
    }
  }

  /** A version stands before every version that goes on from it. */
  lemma {:induction false} PrefixFirst(p: string, a: string)
    requires a != "" && NoLeadingZero(p + a)
    ensures Less(p, p + a) && !Less(p + a, p)
    decreases |p|
  {
    if p == "" {
      assert p + a == a;
    } else if Parts(p, a) || Rest(p) != "" {
      ChunkOfConcat(p, a);
      PrefixFirst(Rest(p), a);
    } else {
      RunGoesOn(p, a);
    }
  }

  /** The last step: p is one run, and the text goes on with it. */
  lemma RunGoesOn(p: string, a: string)
    requires p != "" && a != "" && Rest(p) == "" && !Parts(p, a) && NoLeadingZero(p + a)
    ensures Less(p, p + a) && !Less(p + a, p)
  {
    assert p == Chunk(p) + Rest(p) == Chunk(p);
    var f := Chunk(a);
    assert a == f + Rest(a) && p + a == (p + f) + Rest(a);
    RunThenText(p + f, Rest(a));
    assert p + "" == p;
    LexFirstDifference(p, "", f);
    LexFirstDifference(p, f, "");
    if IsDigit(p[0]) {
      LongerRunIsMore(p, f);
    }
  }

  // ----- Where it stops being an order -----

  function Pow10(n: nat): nat {
    if n == 0 then 1 else 10 * Pow10(n - 1)
  }

  lemma {:induction false} ValueBelowPow10(s: string)
    ensures Value(s) < Pow10(|s|)
  {
    if s != "" { ValueBelowPow10(s[..|s| - 1]); }
  }

  lemma {:induction false} Pow10Monotone(m: nat, n: nat)
    requires m <= n
    ensures Pow10(m) <= Pow10(n)
  {
    if m < n { Pow10Monotone(m, n - 1); }
  }

  lemma {:induction false} ShortRunsFit(s: string, n: nat)
    requires n <= 18 && RunsWithin(s, n)
    ensures Fits(s)
    decreases |s|
  {
    if s != "" {
      ValueBelowPow10(Chunk(s));
      if IsDigit(s[0]) {
        Pow10Monotone(|Chunk(s)|, 18);
        Pow10At18();
      }
      ShortRunsFit(Rest(s), n);
    }
  }

  lemma Pow10At18()
    ensures Pow10(18) == 1_000_000_000_000_000_000
  {
    assert Pow10(6) == 1_000_000 by { assert Pow10(3) == 1000; }
    assert Pow10(12) == 1_000_000_000_000 by { assert Pow10(9) == 1_000_000_000; }
    assert Pow10(15) == 1_000_000_000_000_000;
  }

  ghost predicate TransitiveWithin(n: nat) {
    forall a, b, c | RunsWithin(a, n) && RunsWithin(b, n) && RunsWithin(c, n) && Less(a, b) && Less(b, c) ::
      Less(a, c)
  }

  function Zeros(n: nat): string {
    if n == 0 then "" else Zeros(n - 1) + "0"
  }

  /** 9300000000000000000, the shortest kind of run that overflows. */
  const OVERFLOWING: string := "93" + Zeros(17)

  lemma {:induction false} ZerosAreDigits(n: nat)
    ensures |Zeros(n)| == n && AllDigits(Zeros(n))
  {
    if n > 0 { ZerosAreDigits(n - 1); }
  }

  lemma OverflowingIsARun()
    ensures |OVERFLOWING| == 19 && AllDigits(OVERFLOWING) && OVERFLOWING[0] == '9' && OVERFLOWING[1] == '3'
  {
    ZerosAreDigits(17);
  }

  lemma {:induction false} NinetyThreeThenZeros(n: nat)
    ensures Value("93" + Zeros(n)) == 93 * Pow10(n)
  {
    if n == 0 {
      assert "93" + Zeros(0) == "93" && "93"[..1] == "9" && Value("9") == 9;
    } else {
      var s := "93" + Zeros(n);
      assert s[..|s| - 1] == "93" + Zeros(n - 1) && s[|s| - 1] == '0';
      NinetyThreeThenZeros(n - 1);
    }
  }

  lemma {:induction false} DigitRunIsOneChunk(s: string)
    requires s != "" && AllDigits(s)
    ensures Chunk(s) == s && Rest(s) == ""
  {
    assert RunLength(s, true) == |s|;
  }

  lemma OverflowingDoesNotFit()
    ensures Atoi(OVERFLOWING).None?
  {
    NinetyThreeThenZeros(17);
    Pow10At18();
  }

  lemma SmallRunsFit()
    ensures Atoi("94") == Some(94) && Atoi("100") == Some(100)
  {
    assert "94"[..1] == "9" && Value("9") == 9;
    assert "100"[..2] == "10" && "10"[..1] == "1";
    assert Value("1") == 1 && Value("10") == 10;
  }

  lemma OneChunkLess(a: string, b: string)
    requires a != "" && b != "" && a != b && AllDigits(a) && AllDigits(b)
    ensures Less(a, b) == ChunkLess(a, b)
  {
    DigitRunIsOneChunk(a);
    DigitRunIsOneChunk(b);
  }

  /** A run that overflows int is compared as text, and closes a cycle with two runs that do not. */
  lemma OverflowCycle()
    ensures Less("94", "100") && Less("100", OVERFLOWING) && Less(OVERFLOWING, "94")
    ensures !Less("94", OVERFLOWING)
  {
    OverflowingDoesNotFit();
    OverflowingIsARun();
    SmallRunsFit();
    OneChunkLess("94", "100");
    OneChunkLess("100", OVERFLOWING);
    OneChunkLess(OVERFLOWING, "94");
    OneChunkLess("94", OVERFLOWING);
    LexTrichotomy("94", OVERFLOWING);
  }

  lemma ShortRunsAreTransitive(n: nat)
    requires n <= 18
    ensures TransitiveWithin(n)
  {
    forall a, b, c | RunsWithin(a, n) && RunsWithin(b, n) && RunsWithin(c, n) && Less(a, b) && Less(b, c)
      ensures Less(a, c)
    {
      ShortRunsFit(a, n);
      ShortRunsFit(b, n);
      ShortRunsFit(c, n);
      Transitive(a, b, c);
    }
  }

  lemma OneRunWithin(s: string, n: nat)
    requires s != "" && AllDigits(s) && |s| <= n
    ensures RunsWithin(s, n)
  {
    DigitRunIsOneChunk(s);
  }

  lemma OverflowCycleRuns(n: nat)
    requires n > 18
    ensures RunsWithin("94", n) && RunsWithin("100", n) && RunsWithin(OVERFLOWING, n)
  {
    OneRunWithin("94", n);
    OneRunWithin("100", n);
    OverflowingIsARun();
    OneRunWithin(OVERFLOWING, n);
  }

  /** Runs of 19 digits are enough for a cycle. */
  lemma CycleWithin(n: nat) returns (a: string, b: string, c: string)
    requires n > 18
    ensures RunsWithin(a, n) && RunsWithin(b, n) && RunsWithin(c, n)
    ensures Less(a, b) && Less(b, c) && Less(c, a) && !Less(a, c)
  {
    a, b, c := "94", "100", OVERFLOWING;
    OverflowCycle();
    OverflowCycleRuns(n);
  }

  /** The exact length of run up to which the comparator is transitive. */
  lemma TransitiveExactly(n: nat)
    ensures TransitiveWithin(n) <==> n <= 18
  {
    if n <= 18 {
      ShortRunsAreTransitive(n);
    } else {
      var a, b, c := CycleWithin(n);
    }
  }

  /** Ties are not transitive: "01a" ties with both "1a" and "1b", which are ordered. */
  lemma TiesNotTransitive()
    ensures ZeroClash("01a", "1a") && ZeroClash("01a", "1b") && Less("1a", "1b")
  {
    assert RunLength("01a"[1..], true) == 1 && RunLength("01a", true) == 2;
    assert RunLength("1a", true) == 1 && RunLength("1b", true) == 1;
    assert Chunk("01a") == "01" && Chunk("1a") == "1" && Chunk("1b") == "1";
    assert "01"[..1] == "0" && Value("0") == 0 && Value("01") == 1 && Value("1") == 1;
    assert Rest("1a") == "a" && Rest("1b") == "b";
    assert Chunk("a") == "a" && Chunk("b") == "b";
  }

  // ----- Consumers -----

  datatype Build = Build(version: string, platforms: seq<string>)

  datatype Kind = Agent | Mother

  datatype Snapshot = Snapshot(builds: seq<Build>, mother: seq<Build>)

  /** What sort.Slice leaves behind under SortDescending's comparator. */
  ghost predicate SortedDescending(builds: seq<Build>) {
    forall i, j :: 0 <= i < j < |builds| ==> !Less(builds[i].version, builds[j].version)
  }

  ghost predicate InDomain(builds: seq<Build>) {
    forall i :: 0 <= i < |builds| ==> Fits(builds[i].version) && NoLeadingZero(builds[i].version)
  }

  /** latestTagFor once the asset name has been resolved to its family. */
  function LatestTagFor(kind: Option<Kind>, snap: Snapshot): Option<string> {
    if kind.None? then None
    else
      var builds := if kind.value.Mother? then snap.mother else snap.builds;
      if builds == [] then None else Some(builds[0].version)
  }

  function Family(kind: Kind, snap: Snapshot): seq<Build> {
    if kind.Mother? then snap.mother else snap.builds
  }

  /** The tag served as latest is the maximum of its own family, and no other version is. */
  lemma LatestIsMaximum(kind: Kind, snap: Snapshot)
    requires SortedDescending(Family(kind, snap)) && InDomain(Family(kind, snap))
    ensures Family(kind, snap) == match kind case Agent => snap.builds case Mother => snap.mother
    ensures LatestTagFor(Some(kind), snap).None? <==> Family(kind, snap) == []
    ensures Family(kind, snap) != [] ==>
              var tag := LatestTagFor(Some(kind), snap).value;
              && (exists b :: b in Family(kind, snap) && b.version == tag)
              && forall b :: b in Family(kind, snap) && b.version != tag ==> Less(b.version, tag) && !Less(tag, b.version)
  {
    var builds := Family(kind, snap);
    if builds != [] {
      assert builds[0] in builds;
      forall b | b in builds && b.version != builds[0].version
        ensures Less(b.version, builds[0].version) && !Less(builds[0].version, b.version)
      {
        Trichotomy(b.version, builds[0].version);
      }
    }
  }

  function Versions(builds: seq<Build>): (vs: seq<string>)
    ensures |vs| == |builds|
    ensures forall i :: 0 <= i < |vs| ==> vs[i] == builds[i].version
  {
    seq(|builds|, i requires 0 <= i < |builds| => builds[i].version)
  }

  ghost predicate Descending(vs: seq<string>) {
    forall i, j :: 0 <= i < j < |vs| ==> !Less(vs[i], vs[j])
  }

  lemma SameHead(vs: seq<string>, ws: seq<string>)
    requires vs != [] && ws != [] && multiset(vs) == multiset(ws)
    requires Descending(vs) && Descending(ws)
    requires NoLeadingZero(vs[0]) && NoLeadingZero(ws[0])
    ensures vs[0] == ws[0]
  {
    assert vs[0] in multiset(ws) && ws[0] in multiset(vs);
    Trichotomy(vs[0], ws[0]);
  }

  lemma SameTail(vs: seq<string>, ws: seq<string>)
    requires vs != [] && ws != [] && multiset(vs) == multiset(ws) && vs[0] == ws[0]
    ensures multiset(vs[1..]) == multiset(ws[1..])
  {
    assert vs == [vs[0]] + vs[1..] && ws == [vs[0]] + ws[1..];
    assert multiset(vs[1..]) == multiset(vs) - multiset{vs[0]} == multiset(ws[1..]);
  }

  lemma {:induction false} DescendingIsUnique(vs: seq<string>, ws: seq<string>)
    requires multiset(vs) == multiset(ws) && Descending(vs) && Descending(ws)
    requires forall i :: 0 <= i < |vs| ==> NoLeadingZero(vs[i])
    requires forall i :: 0 <= i < |ws| ==> NoLeadingZero(ws[i])
    ensures vs == ws
    decreases |vs|
  {
    assert |multiset(vs)| == |vs| && |multiset(ws)| == |ws|;
    if vs != [] {
      SameHead(vs, ws);
      SameTail(vs, ws);
      DescendingIsUnique(vs[1..], ws[1..]);
    }
  }

  /** On the domain, sorting has one answer: an unstable sort cannot show a different dropdown. */
  lemma SortIsUnique(xs: seq<Build>, ys: seq<Build>)
    requires multiset(Versions(xs)) == multiset(Versions(ys))
    requires SortedDescending(xs) && SortedDescending(ys)
    requires InDomain(xs) && InDomain(ys)
    ensures Versions(xs) == Versions(ys)
  {
    DescendingIsUnique(Versions(xs), Versions(ys));
  }
}
