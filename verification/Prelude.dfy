/** Small shared vocabulary: optional values, faults of store calls, and counting facts. */
module Prelude {

  datatype Option<+T> = None | Some(value: T)

  /** How a store call goes wrong: not at all, without effect, or after its effect (a lost reply). */
  datatype Fault = NoFault | FailBefore | FailAfter

  /** An injective map from xs into ys shows that xs is no larger than ys. */
  lemma {:induction false} InjectionBound<A, B>(f: map<A, B>, ys: set<B>)
    requires forall x :: x in f ==> f[x] in ys
    requires forall x, x' :: x in f && x' in f && f[x] == f[x'] ==> x == x'
    ensures |f.Keys| <= |ys|
    decreases |f.Keys|
  {
    if f.Keys == {} {
    } else {
      var x :| x in f.Keys;
      var g := map k | k in f && k != x :: f[k];
      assert g.Keys == f.Keys - {x};
      InjectionBound(g, ys - {f[x]});
    }
  }

  lemma {:induction false} GreatestKey(keys: set<nat>) returns (m: nat)
    requires keys != {}
    ensures m in keys && forall k :: k in keys ==> k <= m
    decreases |keys|
  {
    m :| m in keys;
    var rest := keys - {m};
    assert forall k :: k in keys <==> k == m || k in rest;
    if rest != {} {
      var greatest := GreatestKey(rest);
      if greatest > m {
        m := greatest;
      }
    }
  }
}

/** Decimal numerals: strconv.Itoa, zero padding, and reading digits back. */
module Decimal {

  function DigitChar(d: nat): char
    requires d < 10
  {
    ('0' as int + d) as char
  }

  predicate IsDigit(c: char) {
    '0' <= c <= '9'
  }

  predicate AllDigits(s: string) {
    forall i :: 0 <= i < |s| ==> IsDigit(s[i])
  }

  function Itoa(n: nat): (s: string)
    ensures AllDigits(s) && s != []
  {
    if n < 10 then [DigitChar(n)] else Itoa(n / 10) + [DigitChar(n % 10)]
  }

  function Value(s: string): nat
    requires AllDigits(s)
  {
    if s == [] then 0 else 10 * Value(s[..|s| - 1]) + (s[|s| - 1] as int - '0' as int)
  }

  /** Zero-padded to at least `width` digits, as Go's time formatting does. */
  function Pad(s: string, width: nat): string
    decreases width - |s|
  {
    if |s| >= width then s else Pad("0" + s, width)
  }

  lemma {:induction false} ValueOfItoa(n: nat)
    ensures Value(Itoa(n)) == n
  {
    if n < 10 {
    } else {
      ValueOfItoa(n / 10);
      assert Itoa(n)[..|Itoa(n)| - 1] == Itoa(n / 10);
    }
  }

  lemma {:induction false} LeadingZero(s: string)
    requires AllDigits(s)
    ensures AllDigits("0" + s) && Value("0" + s) == Value(s)
  {
    if s == [] {
    } else {
      LeadingZero(s[..|s| - 1]);
      assert ("0" + s)[..|s|] == "0" + s[..|s| - 1];
    }
  }

  lemma {:induction false} ValueOfPad(s: string, width: nat)
    requires AllDigits(s)
    ensures AllDigits(Pad(s, width)) && Value(Pad(s, width)) == Value(s)
    ensures |Pad(s, width)| == if |s| >= width then |s| else width
    decreases width - |s|
  {
    if |s| >= width {
    } else {
      LeadingZero(s);
      ValueOfPad("0" + s, width);
    }
  }

  /** A numeral without a leading zero is the one Itoa prints. */
  lemma {:induction false} ItoaOfValue(s: string)
    requires AllDigits(s) && s != [] && s[0] != '0'
    ensures Value(s) > 0 && Itoa(Value(s)) == s
  {
    if |s| > 1 {
      var front := s[..|s| - 1];
      ItoaOfValue(front);
      assert Value(s) / 10 == Value(front);
      assert s == front + [s[|s| - 1]];
    } else {
      assert s[..0] == [];
    }
  }
}
