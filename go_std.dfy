/** The few pieces of Go's standard library that the bulk-insert core relies on:
    strings.Join, the `<` order on strings with sort.Strings, an ASCII form of
    strings.EqualFold, and fmt.Sprintf restricted to the `%s` and `%%` verbs. */
module GoStd {

  // ---------------------------------------------------------------------------
  // strings.Join

  /** strings.Join: the elements with `sep` between consecutive ones. */
  function Join(elems: seq<string>, sep: string): string
    decreases |elems|
  {
    if |elems| == 0 then ""
    else if |elems| == 1 then elems[0]
    else elems[0] + sep + Join(elems[1..], sep)
  }

  // ---------------------------------------------------------------------------
  // Go's `<` on strings

  /** Go compares strings byte by byte on their UTF-8 encodings. UTF-8 preserves
      the order of code points, so this is the lexicographic order of the
      characters, a proper prefix coming first. */
  predicate Less(a: string, b: string)
    decreases |a|
  {
    if |a| == 0 then |b| > 0
    else if |b| == 0 then false
    else if a[0] != b[0] then a[0] < b[0]
    else Less(a[1..], b[1..])
  }

  predicate LessEq(a: string, b: string) {
    a == b || Less(a, b)
  }

  lemma {:induction false} LessIrreflexive(a: string)
    ensures !Less(a, a)
    decreases |a|
  {
    if |a| > 0 {
      LessIrreflexive(a[1..]);
    }
  }

  lemma {:induction false} LessAsymmetric(a: string, b: string)
    requires Less(a, b)
    ensures !Less(b, a)
    decreases |a|
  {
    if |a| > 0 && a[0] == b[0] {
      LessAsymmetric(a[1..], b[1..]);
    }
  }

  lemma {:induction false} LessTransitive(a: string, b: string, c: string)
    requires Less(a, b) && Less(b, c)
    ensures Less(a, c)
    decreases |a|
  {
    if |a| > 0 && a[0] == b[0] && b[0] == c[0] {
      LessTransitive(a[1..], b[1..], c[1..]);
    }
  }

  lemma {:induction false} LessTotal(a: string, b: string)
    ensures a == b || Less(a, b) || Less(b, a)
    decreases |a|
  {
    if |a| > 0 && |b| > 0 && a[0] == b[0] {
      LessTotal(a[1..], b[1..]);
      if a[1..] == b[1..] {
        assert a == [a[0]] + a[1..] && b == [b[0]] + b[1..];
      }
    }
  }

  lemma LessEqTransitive(a: string, b: string, c: string)
    requires LessEq(a, b) && LessEq(b, c)
    ensures LessEq(a, c)
  {
    if a != b && b != c {
      LessTransitive(a, b, c);
    }
  }

  lemma LessEqAntisymmetric(a: string, b: string)
    requires LessEq(a, b) && LessEq(b, a)
    ensures a == b
  {
    if a != b {
      LessAsymmetric(a, b);
    }
  }

  // ---------------------------------------------------------------------------
  // sort.Strings

  /** Ascending under Go's string order. */
  predicate Sorted(s: seq<string>) {
    forall i, j :: 0 <= i < j < |s| ==> LessEq(s[i], s[j])
  }

  /** Ascending with no repeated element. */
  predicate StrictlySorted(s: seq<string>) {
    forall i, j :: 0 <= i < j < |s| ==> Less(s[i], s[j])
  }

  lemma SortedCons(x: string, t: seq<string>)
    requires Sorted(t)
    requires forall e :: e in t ==> LessEq(x, e)
    ensures Sorted([x] + t)
  {
    var s := [x] + t;
    forall i, j | 0 <= i < j < |s|
      ensures LessEq(s[i], s[j])
    {
      if i > 0 {
        assert s[i] == t[i - 1] && s[j] == t[j - 1];
      } else {
        assert s[j] == t[j - 1] && s[j] in t;
      }
    }
  }

  /** One step of an insertion sort: `x` placed before the first element it
      does not exceed. */
  function InsertSorted(s: seq<string>, x: string): (r: seq<string>)
    requires Sorted(s)
    ensures Sorted(r)
    ensures multiset(r) == multiset(s) + multiset{x}
    decreases |s|
  {
    if s == [] then
      [x]
    else if LessEq(x, s[0]) then
      assert forall e :: e in s ==> LessEq(x, e) by {
        forall e | e in s ensures LessEq(x, e) {
          var j :| 0 <= j < |s| && s[j] == e;
          if j > 0 {
            LessEqTransitive(x, s[0], e);
          }
        }
      }
      SortedCons(x, s);
      [x] + s
    else
      var rest := InsertSorted(s[1..], x);
      assert s == [s[0]] + s[1..];
      assert forall e :: e in rest ==> LessEq(s[0], e) by {
        LessTotal(x, s[0]);
        forall e | e in rest ensures LessEq(s[0], e) {
          assert e in multiset(rest);
          if e != x {
            assert e in multiset(s[1..]);
            var j :| 0 <= j < |s[1..]| && s[1..][j] == e;
            assert s[j + 1] == e;
          }
        }
      }
      SortedCons(s[0], rest);
      [s[0]] + rest
  }

  /** sort.Strings, on a sequence instead of a slice sorted in place: the result
      is ascending and holds exactly the input's elements. */
  method SortStrings(s: seq<string>) returns (r: seq<string>)
    ensures Sorted(r)
    ensures multiset(r) == multiset(s)
  {
    r := [];
    for i := 0 to |s|
      invariant Sorted(r)
      invariant multiset(r) == multiset(s[..i])
    {
      assert s[..i + 1] == s[..i] + [s[i]];
      r := InsertSorted(r, s[i]);
    }
    assert s[..|s|] == s;
  }

  /** Two ascending sequences with the same elements are the same sequence, so
      the order that sort.Strings produces does not depend on how its input was
      arranged. */
  lemma {:induction false} SortedUnique(a: seq<string>, b: seq<string>)
    requires Sorted(a) && Sorted(b)
    requires multiset(a) == multiset(b)
    ensures a == b
    decreases |a|
  {
    if a == [] {
      assert |multiset(b)| == 0;
    } else {
      assert |b| == |multiset(b)| == |multiset(a)| == |a|;
      assert a[0] in multiset(b) && b[0] in multiset(a);
      var i :| 0 <= i < |b| && b[i] == a[0];
      var j :| 0 <= j < |a| && a[j] == b[0];
      LessEqAntisymmetric(a[0], b[0]);
      TailMultiset(a);
      TailMultiset(b);
      SortedUnique(a[1..], b[1..]);
      assert a == [a[0]] + a[1..] && b == [b[0]] + b[1..];
    }
  }

  lemma TailMultiset(a: seq<string>)
    requires a != []
    ensures multiset(a[1..]) == multiset(a) - multiset{a[0]}
  {
    assert a == [a[0]] + a[1..];
  }

  lemma {:induction false} MinimumExists(keys: set<string>)
    requires keys != {}
    ensures exists m :: m in keys && forall c :: c in keys ==> LessEq(m, c)
    decreases keys
  {
    var x :| x in keys;
    if keys - {x} == {} {
      assert keys == {x};
      assert forall c :: c in keys ==> LessEq(x, c);
    } else {
      MinimumExists(keys - {x});
      var m :| m in keys - {x} && forall c :: c in keys - {x} ==> LessEq(m, c);
      LessTotal(m, x);
      if Less(x, m) {
        forall c | c in keys ensures LessEq(x, c) {
          if c != x {
            LessEqTransitive(x, m, c);
          }
        }
      } else {
        assert forall c :: c in keys ==> LessEq(m, c);
      }
    }
  }

  /** The elements of a set of strings in ascending order: what sorting any
      listing of the set yields. */
  ghost function SortedKeys(keys: set<string>): (r: seq<string>)
    ensures StrictlySorted(r) && Sorted(r)
    ensures forall c :: c in r <==> c in keys
    ensures multiset(r) == multiset(keys)
    decreases keys
  {
    if keys == {} then
      []
    else
      MinimumExists(keys);
      var m :| m in keys && forall c :: c in keys ==> LessEq(m, c);
      var rest := SortedKeys(keys - {m});
      MinimumFirst(m, keys, rest);
      [m] + rest
  }

  lemma MinimumFirst(m: string, keys: set<string>, rest: seq<string>)
    requires m in keys && forall c :: c in keys ==> LessEq(m, c)
    requires StrictlySorted(rest) && Sorted(rest)
    requires forall c :: c in rest <==> c in keys - {m}
    requires multiset(rest) == multiset(keys - {m})
    ensures StrictlySorted([m] + rest) && Sorted([m] + rest)
    ensures forall c :: c in [m] + rest <==> c in keys
    ensures multiset([m] + rest) == multiset(keys)
  {
    var r := [m] + rest;
    forall i, j | 0 <= i < j < |r| ensures Less(r[i], r[j]) {
      assert r[j] == rest[j - 1] && r[j] in rest;
      if i > 0 {
        assert r[i] == rest[i - 1];
      }
    }
    assert keys == {m} + (keys - {m});
    assert multiset(keys) == multiset{m} + multiset(keys - {m});
  }

  // ---------------------------------------------------------------------------
  // strings.EqualFold, restricted to ASCII letters

  function AsciiLower(c: char): char {
    if 'A' <= c <= 'Z' then (c as int + 32) as char else c
  }

  /** strings.EqualFold with ASCII case folding only. */
  predicate EqualFold(a: string, b: string) {
    |a| == |b| && forall i :: 0 <= i < |a| ==> AsciiLower(a[i]) == AsciiLower(b[i])
  }

  // ---------------------------------------------------------------------------
  // fmt.Sprintf with string arguments

  /** fmt.Sprintf for the verbs the core uses: `%s` takes the next argument
      verbatim, `%%` writes one `%`, a `%s` with no argument left writes
      Go's `%!s(MISSING)`; every other character is copied. */
  function Sprintf(format: string, args: seq<string>): string
    decreases |format|
  {
    if format == [] then
      ""
    else if format[0] == '%' && |format| >= 2 && format[1] == '%' then
      "%" + Sprintf(format[2..], args)
    else if format[0] == '%' && |format| >= 2 && format[1] == 's' then
      if args == [] then "%!s(MISSING)" + Sprintf(format[2..], args)
      else args[0] + Sprintf(format[2..], args[1..])
    else
      [format[0]] + Sprintf(format[1..], args)
  }

  /** Text without a `%` is copied to the output unchanged. */
  lemma {:induction false} SprintfLiteral(lit: string, rest: string, args: seq<string>)
    requires '%' !in lit
    ensures Sprintf(lit + rest, args) == lit + Sprintf(rest, args)
    decreases |lit|
  {
    if lit != [] {
      assert (lit + rest)[0] == lit[0] && (lit + rest)[1..] == lit[1..] + rest;
      assert lit[0] != '%';
      SprintfLiteral(lit[1..], rest, args);
      assert lit == [lit[0]] + lit[1..];
    } else {
      assert lit + rest == rest;
    }
  }

  /** A `%s` writes its argument as it is, whatever characters it holds. */
  lemma SprintfVerb(rest: string, arg: string, args: seq<string>)
    ensures Sprintf("%s" + rest, [arg] + args) == arg + Sprintf(rest, args)
  {
    var f := "%s" + rest;
    assert f[0] == '%' && f[1] == 's' && f[2..] == rest;
    assert ([arg] + args)[1..] == args;
  }

  /** A format without `%` prints as itself. */
  lemma SprintfPlain(lit: string, args: seq<string>)
    requires '%' !in lit
    ensures Sprintf(lit, args) == lit
  {
    SprintfLiteral(lit, "", args);
    assert lit + "" == lit;
  }

  /** `%`-free text and a `%s` in front of a format: the text, then the first
      argument, then what the rest of the format prints with the remaining
      arguments. */
  lemma SprintfPrepend(lit: string, rest: string, args: seq<string>, out: string)
    requires '%' !in lit && args != []
    requires Sprintf(rest, args[1..]) == out
    ensures Sprintf(lit + "%s" + rest, args) == lit + args[0] + out
  {
    assert lit + "%s" + rest == lit + ("%s" + rest);
    SprintfLiteral(lit, "%s" + rest, args);
    assert args == [args[0]] + args[1..];
    SprintfVerb(rest, args[0], args[1..]);
  }

  lemma SprintfOne(l0: string, l1: string, a0: string)
    requires '%' !in l0 && '%' !in l1
    ensures Sprintf(l0 + "%s" + l1, [a0]) == l0 + a0 + l1
  {
    assert [a0][1..] == [];
    SprintfPlain(l1, []);
    SprintfPrepend(l0, l1, [a0], l1);
  }

  lemma SprintfTwo(l0: string, l1: string, l2: string, a0: string, a1: string)
    requires '%' !in l0 && '%' !in l1 && '%' !in l2
    ensures Sprintf(l0 + "%s" + l1 + "%s" + l2, [a0, a1]) == l0 + a0 + l1 + a1 + l2
  {
    var rest := l1 + "%s" + l2;
    var out := l1 + a1 + l2;
    assert Sprintf(rest, [a1]) == out by {
      SprintfOne(l1, l2, a1);
    }
    assert Sprintf(l0 + "%s" + rest, [a0, a1]) == l0 + a0 + out by {
      assert [a0, a1][1..] == [a1];
      SprintfPrepend(l0, rest, [a0, a1], out);
    }
    RegroupThree(l0, "%s", l1, "%s", l2);
    RegroupThree(l0, a0, l1, a1, l2);
  }

  lemma SprintfThree(l0: string, l1: string, l2: string, l3: string, a0: string, a1: string, a2: string)
    requires '%' !in l0 && '%' !in l1 && '%' !in l2 && '%' !in l3
    ensures Sprintf(l0 + "%s" + l1 + "%s" + l2 + "%s" + l3, [a0, a1, a2]) == l0 + a0 + l1 + a1 + l2 + a2 + l3
  {
    var rest := l1 + "%s" + l2 + "%s" + l3;
    var out := l1 + a1 + l2 + a2 + l3;
    assert Sprintf(rest, [a1, a2]) == out by {
      SprintfTwo(l1, l2, l3, a1, a2);
    }
    assert Sprintf(l0 + "%s" + rest, [a0, a1, a2]) == l0 + a0 + out by {
      assert [a0, a1, a2][1..] == [a1, a2];
      SprintfPrepend(l0, rest, [a0, a1, a2], out);
    }
    RegroupFour(l0, "%s", l1, "%s", l2, "%s", l3);
    RegroupFour(l0, a0, l1, a1, l2, a2, l3);
  }

  lemma SprintfFour(l0: string, l1: string, l2: string, l3: string, l4: string,
                    a0: string, a1: string, a2: string, a3: string)
    requires '%' !in l0 && '%' !in l1 && '%' !in l2 && '%' !in l3 && '%' !in l4
    ensures Sprintf(l0 + "%s" + l1 + "%s" + l2 + "%s" + l3 + "%s" + l4, [a0, a1, a2, a3])
         == l0 + a0 + l1 + a1 + l2 + a2 + l3 + a3 + l4
  {
    var rest := l1 + "%s" + l2 + "%s" + l3 + "%s" + l4;
    var out := l1 + a1 + l2 + a2 + l3 + a3 + l4;
    assert Sprintf(rest, [a1, a2, a3]) == out by {
      SprintfThree(l1, l2, l3, l4, a1, a2, a3);
    }
    assert Sprintf(l0 + "%s" + rest, [a0, a1, a2, a3]) == l0 + a0 + out by {
      assert [a0, a1, a2, a3][1..] == [a1, a2, a3];
      SprintfPrepend(l0, rest, [a0, a1, a2, a3], out);
    }
    RegroupFive(l0, "%s", l1, "%s", l2, "%s", l3, "%s", l4);
    RegroupFive(l0, a0, l1, a1, l2, a2, l3, a3, l4);
  }

  lemma RegroupFive(p0: string, p1: string, p2: string, p3: string, p4: string,
                    p5: string, p6: string, p7: string, p8: string)
    ensures p0 + p1 + p2 + p3 + p4 + p5 + p6 + p7 + p8 == p0 + p1 + (p2 + p3 + p4 + p5 + p6 + p7 + p8)
  {
  }

  lemma RegroupThree(p0: string, p1: string, p2: string, p3: string, p4: string)
    ensures p0 + p1 + p2 + p3 + p4 == p0 + p1 + (p2 + p3 + p4)
  {
  }

  lemma RegroupFour(p0: string, p1: string, p2: string, p3: string, p4: string, p5: string, p6: string)
    ensures p0 + p1 + p2 + p3 + p4 + p5 + p6 == p0 + p1 + (p2 + p3 + p4 + p5 + p6)
  {
  }
}
