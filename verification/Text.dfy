/** Strings as the generated SQL needs them: ordering, decimal numerals, joining. */
module Text {

  // ---- sort.Strings: lexicographic order ----

  predicate Le(a: string, b: string) {
    a == "" || (b != "" && (a[0] < b[0] || (a[0] == b[0] && Le(a[1..], b[1..]))))
  }

  lemma LeTotal(a: string, b: string)
    ensures Le(a, b) || Le(b, a)
  {}

  lemma LeAntisymmetric(a: string, b: string)
    requires Le(a, b) && Le(b, a)
    ensures a == b
  {
    if a != "" {
      LeAntisymmetric(a[1..], b[1..]);
      assert a == [a[0]] + a[1..] && b == [b[0]] + b[1..];
    }
  }

  lemma LeTransitive(a: string, b: string, c: string)
    requires Le(a, b) && Le(b, c)
    ensures Le(a, c)
  {}

  /** Ascending means: the first place where two strings differ decides, and a prefix
      comes first. */
  lemma {:induction false} LeDecides(a: string, b: string, i: nat)
    requires i <= |a| && i <= |b| && a[..i] == b[..i]
    ensures i == |a| ==> Le(a, b)
    ensures i < |a| && i < |b| && a[i] < b[i] ==> Le(a, b) && !Le(b, a)
    ensures i < |a| && i == |b| ==> !Le(a, b)
  {
    if i > 0 {
      assert a[0] == a[..i][0] && b[0] == b[..i][0];
      assert a[1..][..i - 1] == a[..i][1..] && b[1..][..i - 1] == b[..i][1..];
      LeDecides(a[1..], b[1..], i - 1);
    }
  }

  ghost predicate Sorted(s: seq<string>) {
    forall i, j :: 0 <= i < j < |s| ==> Le(s[i], s[j]) && s[i] != s[j]
  }

  function Elements<T(==)>(s: seq<T>): set<T> {
    set x | x in s
  }

  /** The order is total, so a set has exactly one strictly ascending listing. */
  lemma {:induction false} SortedIsUnique(a: seq<string>, b: seq<string>)
    requires Sorted(a) && Sorted(b) && Elements(a) == Elements(b)
    ensures a == b
  {
    assert a != [] ==> a[0] in Elements(a);
    assert b != [] ==> b[0] in Elements(b);
    if a != [] && b != [] {
      assert a[0] in Elements(b) && b[0] in Elements(a);
      if a[0] != b[0] {
        LeAntisymmetric(a[0], b[0]);
      }
      forall x ensures x in Elements(a[1..]) <==> x in Elements(b[1..]) {
        assert x in Elements(a) <==> x == a[0] || x in a[1..];
        assert x in Elements(b) <==> x == b[0] || x in b[1..];
        assert a[0] !in a[1..] && b[0] !in b[1..];
      }
      SortedIsUnique(a[1..], b[1..]);
      assert a == [a[0]] + a[1..] && b == [b[0]] + b[1..];
    }
  }

  lemma SortedCons(x: string, s: seq<string>)
    requires Sorted(s) && forall y :: y in s ==> Le(x, y) && x != y
    ensures Sorted([x] + s) && Elements([x] + s) == {x} + Elements(s)
  {
    var r := [x] + s;
    forall i, j | 0 <= i < j < |r| ensures Le(r[i], r[j]) && r[i] != r[j] {
      assert r[j] == s[j - 1] && s[j - 1] in s;
      assert i > 0 ==> r[i] == s[i - 1];
    }
  }

  lemma LeastExists(s: set<string>) returns (m: string)
    requires s != {}
    ensures m in s && forall x :: x in s ==> Le(m, x)
  {
    m :| m in s;
    LeTotal(m, m);
    if s != {m} {
      var n := LeastExists(s - {m});
      LeTotal(m, n);
      if Le(n, m) {
        m := n;
      } else {
        forall x | x in s ensures Le(m, x) {
          if x != m {
            LeTransitive(m, n, x);
          }
        }
      }
    }
  }

  /** The one ascending listing of a set. */
  ghost function Listing(s: set<string>): (r: seq<string>)
    ensures Sorted(r) && Elements(r) == s
  {
    if s == {} then []
    else
      Least(s);
      var m :| m in s && forall x :: x in s ==> Le(m, x);
      var rest := Listing(s - {m});
      assert forall x :: x in rest ==> x in Elements(rest);
      SortedCons(m, rest);
      [m] + rest
  }

  lemma Least(s: set<string>)
    requires s != {}
    ensures exists m :: m in s && forall x :: x in s ==> Le(m, x)
  {
    var m := LeastExists(s);
  }

  /** One step of sort.Strings: put `x` in its place. */
  function Placed(s: seq<string>, x: string): seq<string> {
    if s == [] then [x]
    else if Le(x, s[0]) then [x] + s
    else [s[0]] + Placed(s[1..], x)
  }

  lemma {:induction false} PlacedSorted(s: seq<string>, x: string)
    requires Sorted(s) && x !in s
    ensures Sorted(Placed(s, x)) && Elements(Placed(s, x)) == Elements(s) + {x}
  {
    if s != [] {
      LeTotal(x, s[0]);
      if Le(x, s[0]) {
        forall y | y in s ensures Le(x, y) {
          LeTotal(y, y);
          LeTransitive(x, s[0], y);
        }
        SortedCons(x, s);
      } else {
        PlacedSorted(s[1..], x);
        assert Elements(s) == {s[0]} + Elements(s[1..]);
        var rest := Placed(s[1..], x);
        forall y | y in rest ensures Le(s[0], y) && s[0] != y {
          assert y in Elements(rest);
        }
        SortedCons(s[0], rest);
      }
    }
  }

  predicate Distinct<T(==)>(s: seq<T>) {
    forall i, j :: 0 <= i < j < |s| ==> s[i] != s[j]
  }

  method SortStrings(keys: seq<string>) returns (r: seq<string>)
    requires Distinct(keys)
    ensures Sorted(r) && Elements(r) == Elements(keys)
  {
    r := [];
    for i := 0 to |keys|
      invariant Sorted(r) && Elements(r) == Elements(keys[..i])
    {
      assert keys[i] !in r by {
        assert keys[i] !in Elements(r);
      }
      PlacedSorted(r, keys[i]);
      r := Placed(r, keys[i]);
      assert keys[..i + 1] == keys[..i] + [keys[i]];
    }
    assert keys[..|keys|] == keys;
  }

  // ---- fmt.Sprintf("%d", n) ----

  predicate IsDigit(c: char) {
    '0' <= c <= '9'
  }

  function Decimal(n: nat): (s: string)
    ensures s != "" && forall c :: c in s ==> IsDigit(c)
  {
    if n < 10 then [('0' as int + n) as char] else Decimal(n / 10) + [('0' as int + n % 10) as char]
  }

  function ParseDecimal(s: string): nat
    requires forall c :: c in s ==> IsDigit(c)
  {
    if s == "" then 0 else
      assert IsDigit(s[|s| - 1]);
      10 * ParseDecimal(s[..|s| - 1]) + (s[|s| - 1] as int - '0' as int)
  }

  lemma {:induction false} DecimalRoundTrip(n: nat)
    ensures ParseDecimal(Decimal(n)) == n
  {
    if n >= 10 {
      DecimalRoundTrip(n / 10);
      var s := Decimal(n);
      assert s[..|s| - 1] == Decimal(n / 10);
    } else {
      assert ParseDecimal("") == 0;
      assert Decimal(n)[..0] == "";
    }
  }

  // ---- strings.Join ----

  function Join(parts: seq<string>, sep: string): string {
    if parts == [] then "" else if |parts| == 1 then parts[0] else parts[0] + (sep + Join(parts[1..], sep))
  }
}
