/** Text as the parsers see it: prefixes, cuts, lines. */
module Text {
  import opened Changes

  predicate HasPrefix(s: string, p: string) {
    |p| <= |s| && s[..|p|] == p
  }

  /** strings.Split on one character: always at least one piece. */
  function Split(s: string, sep: char): (r: seq<string>)
    ensures |r| > 0 && forall x :: x in r ==> sep !in x
    decreases |s|
  {
    if s == "" then [""]
    else if s[0] == sep then [""] + Split(s[1..], sep)
    else
      var r := Split(s[1..], sep);
      [[s[0]] + r[0]] + r[1..]
  }

  function Join(xs: seq<string>, sep: char): string {
    if xs == [] then "" else if |xs| == 1 then xs[0] else xs[0] + [sep] + Join(xs[1..], sep)
  }

  lemma {:induction false} SplitFirst(x: string, rest: string, sep: char)
    requires sep !in x
    ensures Split(x + [sep] + rest, sep) == [x] + Split(rest, sep)
    decreases |x|
  {
    var s := x + [sep] + rest;
    if x == "" {
      assert s[1..] == rest;
    } else {
      assert s[1..] == x[1..] + [sep] + rest;
      assert x[0] in x && forall c :: c in x[1..] ==> c in x;
      SplitFirst(x[1..], rest, sep);
      assert [x[0]] + x[1..] == x;
    }
  }

  lemma {:induction false} SplitOne(x: string, sep: char)
    requires sep !in x
    ensures Split(x, sep) == [x]
    decreases |x|
  {
    if x != "" {
      assert x[0] in x && forall c :: c in x[1..] ==> c in x;
      SplitOne(x[1..], sep);
      assert [x[0]] + x[1..] == x;
    }
  }

  /** Splitting what was joined gives the pieces back. */
  lemma {:induction false} SplitJoin(xs: seq<string>, sep: char)
    requires |xs| > 0 && forall x :: x in xs ==> sep !in x
    ensures Split(Join(xs, sep), sep) == xs
    decreases |xs|
  {
    assert xs[0] in xs;
    if |xs| == 1 {
      SplitOne(xs[0], sep);
    } else {
      assert forall x :: x in xs[1..] ==> x in xs;
      SplitJoin(xs[1..], sep);
      SplitFirst(xs[0], Join(xs[1..], sep), sep);
    }
  }

  lemma {:induction false} JoinLast(xs: seq<string>, x: string, sep: char)
    requires |xs| > 0
    ensures Join(xs + [x], sep) == Join(xs, sep) + [sep] + x
    decreases |xs|
  {
    if |xs| > 1 {
      assert (xs + [x])[1..] == xs[1..] + [x];
      JoinLast(xs[1..], x, sep);
    }
  }

  lemma OtherStart(s: string, p: string)
    requires p != "" && (s == "" || s[0] != p[0])
    ensures !HasPrefix(s, p)
  {
  }

  // ----- Searching

  predicate At(s: string, sub: string, i: nat) {
    i + |sub| <= |s| && s[i..i + |sub|] == sub
  }

  lemma NotAt(s: string, sub: string, j: nat, i: nat)
    requires i < |sub| && (j + i >= |s| || s[j + i] != sub[i])
    ensures !At(s, sub, j)
  {
    if j + |sub| <= |s| { assert s[j..j + |sub|][i] == s[j + i]; }
  }

  /** strings.Index. */
  function IndexOf(s: string, sub: string, from: nat := 0): (r: Option<nat>)
    requires from <= |s|
    ensures r.Some? ==> from <= r.value && At(s, sub, r.value) && forall j: nat :: from <= j < r.value ==> !At(s, sub, j)
    ensures r.None? ==> forall j: nat :: from <= j ==> !At(s, sub, j)
    decreases |s| - from
  {
    if At(s, sub, from) then Some(from) else if from == |s| then None else IndexOf(s, sub, from + 1)
  }

  /** strings.LastIndex, searching down from `from`. */
  function LastIndexOf(s: string, sub: string, from: nat): (r: Option<nat>)
    ensures r.Some? ==> r.value <= from && At(s, sub, r.value) && forall j: nat :: r.value < j <= from ==> !At(s, sub, j)
    ensures r.None? ==> forall j: nat :: j <= from ==> !At(s, sub, j)
  {
    if At(s, sub, from) then Some(from) else if from == 0 then None else LastIndexOf(s, sub, from - 1)
  }

  /** strings.Cut: what is before and after the first `sub`. */
  function Cut(s: string, sub: string): Option<(string, string)> {
    var i := IndexOf(s, sub);
    if i.Some? then Some((s[..i.value], s[i.value + |sub|..])) else None
  }

  lemma CutAt(a: string, sub: string, b: string)
    requires forall j: nat :: j < |a| ==> !At(a + sub + b, sub, j)
    ensures Cut(a + sub + b, sub) == Some((a, b))
  {
    var s := a + sub + b;
    assert s[|a|..|a| + |sub|] == sub;
    assert At(s, sub, |a|);
    assert s[..|a|] == a && s[|a| + |sub|..] == b;
  }

  // ----- Numbers

  const MAX_INT: int := 0x7fff_ffff_ffff_ffff

  function Digit(n: nat): char
    requires n < 10
  {
    '0' + n as char
  }

  predicate IsDigit(c: char) {
    '0' <= c <= '9'
  }

  function DigitValue(c: char): nat
    requires IsDigit(c)
  {
    (c - '0') as nat
  }

  predicate Digits(s: string) {
    s != "" && forall c :: c in s ==> IsDigit(c)
  }

  /** strconv.Itoa, for the numbers git prints. */
  function Itoa(n: nat): (r: string)
    ensures Digits(r)
  {
    if n < 10 then [Digit(n)] else Itoa(n / 10) + [Digit(n % 10)]
  }

  function Value(s: string): nat
    requires forall c :: c in s ==> IsDigit(c)
  {
    if s == "" then 0
    else
      var n := |s| - 1;
      SplitLast(s);
      10 * Value(s[..n]) + DigitValue(s[n])
  }

  /** strconv.Atoi on a 64-bit int: an optional sign, digits, nothing else, in range. */
  function Atoi(s: string): Option<int> {
    var signed := s != "" && (s[0] == '-' || s[0] == '+');
    var body := if signed then s[1..] else s;
    if !Digits(body) then None
    else
      var n: int := Value(body);
      if signed && s[0] == '-' then (if n <= MAX_INT + 1 then Some(-n) else None)
      else if n <= MAX_INT then Some(n) else None
  }

  lemma {:induction false} ValueItoa(n: nat)
    ensures Value(Itoa(n)) == n
  {
    if n >= 10 {
      var s := Itoa(n / 10) + [Digit(n % 10)];
      ValueItoa(n / 10);
      assert s[..|s| - 1] == Itoa(n / 10);
    }
  }

  /** Signs are read, and what does not fit or is no number is refused. */
  lemma AtoiSigned(n: nat, s: string)
    ensures Atoi("+" + Itoa(n)) == if n <= MAX_INT then Some(n) else None
    ensures Atoi("-" + Itoa(n)).Some? <==> n <= MAX_INT + 1
    ensures Atoi("-" + Itoa(n)).Some? ==> Atoi("-" + Itoa(n)).value + n == 0
    ensures (exists i :: 0 < i < |s| && !IsDigit(s[i])) || s in {"", "+", "-"} ==> Atoi(s).None?
  {
    ValueItoa(n);
    assert ("+" + Itoa(n))[1..] == Itoa(n) && ("-" + Itoa(n))[1..] == Itoa(n);
    if i :| 0 < i < |s| && !IsDigit(s[i]) {
      assert s[i] in s && s[1..][i - 1] == s[i];
    }
  }

  /** A number that fits is read back as it was printed. */
  lemma AtoiItoa(n: nat)
    requires n <= MAX_INT
    ensures Atoi(Itoa(n)) == Some(n)
  {
    ValueItoa(n);
    assert Itoa(n)[0] in Itoa(n);
  }
}
