/** Sorting names as Python sorts strings: by their characters. */
module NameOrder {
  predicate Less(a: string, b: string) {
    if b == "" then false
    else if a == "" then true
    else a[0] < b[0] || (a[0] == b[0] && Less(a[1..], b[1..]))
  }

  lemma {:induction false} LessTotal(a: string, b: string)
    ensures a == b || Less(a, b) || Less(b, a)
    ensures !(Less(a, b) && Less(b, a)) && !Less(a, a)
  {
    if a != "" && b != "" {
      LessTotal(a[1..], b[1..]);
      LessTotal(a[1..], a[1..]);
      assert a == [a[0]] + a[1..] && b == [b[0]] + b[1..];
    } else if a != "" {
      LessTotal(a[1..], a[1..]);
    }
  }

  lemma {:induction false} LessTransitive(a: string, b: string, c: string)
    requires Less(a, b) && Less(b, c)
    ensures Less(a, c)
  {
    if a != "" && a[0] == b[0] && b[0] == c[0] {
      LessTransitive(a[1..], b[1..], c[1..]);
    }
  }

  ghost predicate IsMin(m: string, names: set<string>) {
    m in names && forall n :: n in names ==> n == m || Less(m, n)
  }

  lemma {:induction false} MinExists(names: set<string>)
    requires names != {}
    ensures exists m :: IsMin(m, names)
    decreases |names|
  {
    var n :| n in names;
    if names == {n} {
      assert IsMin(n, names);
    } else {
      MinExists(names - {n});
      var rest :| IsMin(rest, names - {n});
      LessTotal(n, rest);
      var m := if Less(n, rest) then n else rest;
      forall k | k in names ensures k == m || Less(m, k) {
        if k != n && k != m && m == n && k != rest {
          LessTransitive(n, rest, k);
        }
      }
      assert IsMin(m, names);
    }
  }

  lemma MinUnique(a: string, b: string, names: set<string>)
    requires IsMin(a, names) && IsMin(b, names)
    ensures a == b
  {
    LessTotal(a, b);
  }

  ghost function Min(names: set<string>): (m: string)
    requires names != {}
    ensures IsMin(m, names)
  {
    MinExists(names);
    var m :| IsMin(m, names);
    m
  }

  ghost function Sorted(names: set<string>): seq<string> {
    if names == {} then [] else [Min(names)] + Sorted(names - {Min(names)})
  }

  method FindMin(names: set<string>) returns (m: string)
    requires names != {}
    ensures IsMin(m, names)
  {
    m :| m in names;
    var rest := names - {m};
    while rest != {}
      invariant rest <= names && m in names
      invariant forall n :: n in names && n !in rest ==> n == m || Less(m, n)
      decreases rest
    {
      var n :| n in rest;
      LessTotal(m, n);
      if Less(n, m) {
        forall k | k in names && k !in rest ensures k == n || Less(n, k) {
          if k != m {
            LessTransitive(n, m, k);
          }
        }
        m := n;
      }
      rest := rest - {n};
    }
  }

  method SortNames(names: set<string>) returns (sorted: seq<string>)
    ensures sorted == Sorted(names)
  {
    hide IsMin;
    sorted := [];
    var left := names;
    while left != {}
      invariant sorted + Sorted(left) == Sorted(names)
      decreases |left|
    {
      var m := FindMin(left);
      MinUnique(m, Min(left), left);
      MinIn(m, left);
      assert sorted + Sorted(left) == (sorted + [m]) + Sorted(left - {m});
      sorted := sorted + [m];
      left := left - {m};
    }
  }

  lemma MinIn(m: string, names: set<string>)
    requires IsMin(m, names)
    ensures m in names
  {
  }

  lemma {:induction false} SortedMembers(names: set<string>)
    ensures forall n :: n in Sorted(names) <==> n in names
    decreases |names|
  {
    if names != {} {
      SortedMembers(names - {Min(names)});
    }
  }
}
