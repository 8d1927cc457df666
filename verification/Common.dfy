/** Small vocabulary shared by every model: optional values, picking by flags, newest-n suffixes. */
module Common {

  datatype Option<+T> = None | Some(value: T)

  /** The elements of `s` whose flag is set, in order. */
  function Pick<T>(s: seq<T>, flags: seq<bool>): (r: seq<T>)
    requires |s| == |flags|
    ensures |r| <= |s|
  {
    if s == [] then []
    else (if flags[0] then [s[0]] else []) + Pick(s[1..], flags[1..])
  }

  /** Picking distributes over concatenation. */
  lemma {:induction false} PickConcat<T>(s: seq<T>, f: seq<bool>, t: seq<T>, g: seq<bool>)
    requires |s| == |f| && |t| == |g|
    ensures Pick(s + t, f + g) == Pick(s, f) + Pick(t, g)
  {
    if s == [] {
      assert s + t == t && f + g == g;
    } else {
      PickConcat(s[1..], f[1..], t, g);
      var head, p, q := if f[0] then [s[0]] else [], Pick(s[1..], f[1..]), Pick(t, g);
      assert Pick(s + t, f + g) == head + (p + q) by {
        assert (s + t)[1..] == s[1..] + t && (f + g)[1..] == f[1..] + g;
      }
      assert head + (p + q) == (head + p) + q;
    }
  }

  /** One more element at the end, the step of a loop that filters into a list. */
  lemma {:induction false} PickSnoc<T>(s: seq<T>, f: seq<bool>, n: nat)
    requires |s| == |f| && n < |s|
    ensures Pick(s[..n + 1], f[..n + 1]) == Pick(s[..n], f[..n]) + (if f[n] then [s[n]] else [])
  {
    assert s[..n + 1] == s[..n] + [s[n]] && f[..n + 1] == f[..n] + [f[n]];
    PickConcat(s[..n], f[..n], [s[n]], [f[n]]);
    assert Pick([s[n]], [f[n]]) == if f[n] then [s[n]] else [];
  }

  /** Every picked element carries a set flag, and every element with a set flag is picked. */
  lemma {:induction false} PickMembers<T>(s: seq<T>, f: seq<bool>)
    requires |s| == |f|
    ensures forall i :: 0 <= i < |s| && f[i] ==> s[i] in Pick(s, f)
    ensures forall x :: x in Pick(s, f) ==> exists i :: 0 <= i < |s| && f[i] && s[i] == x
  {
    if s != [] {
      PickMembers(s[1..], f[1..]);
      var rest := Pick(s[1..], f[1..]);
      forall i | 0 <= i < |s| && f[i] ensures s[i] in Pick(s, f) {
        if i > 0 { assert s[1..][i - 1] in rest; }
      }
      forall x | x in Pick(s, f) ensures exists i :: 0 <= i < |s| && f[i] && s[i] == x {
        if x in rest {
          var i :| 0 <= i < |s| - 1 && f[1..][i] && s[1..][i] == x;
          assert f[i + 1] && s[i + 1] == x;
        } else {
          assert f[0] && s[0] == x;
        }
      }
    }
  }

  lemma {:induction false} PickAll<T>(s: seq<T>, f: seq<bool>)
    requires |s| == |f| && forall i :: 0 <= i < |f| ==> f[i]
    ensures Pick(s, f) == s
  {
    if s != [] { PickAll(s[1..], f[1..]); }
  }

  /** The newest `n` elements of a sequence that is oldest first. */
  function LastN<T>(s: seq<T>, n: int): (r: seq<T>)
    ensures |r| == if n <= 0 then 0 else if |s| <= n then |s| else n
    ensures r == s[|s| - |r|..]
  {
    if n <= 0 then [] else if |s| <= n then s else s[|s| - n..]
  }

  function Reverse<T>(s: seq<T>): (r: seq<T>)
    ensures |r| == |s|
    ensures forall i :: 0 <= i < |s| ==> r[i] == s[|s| - 1 - i]
  {
    if s == [] then [] else Reverse(s[1..]) + [s[0]]
  }

  ghost predicate Distinct<T>(s: seq<T>) {
    forall i, j :: 0 <= i < j < |s| ==> s[i] != s[j]
  }

  /** Python's list.remove: the first occurrence goes, if there is one. */
  function Without<T(==)>(members: seq<T>, s: T): seq<T> {
    if members == [] then []
    else if members[0] == s then members[1..]
    else [members[0]] + Without(members[1..], s)
  }

  lemma {:induction false} WithoutLaw<T>(members: seq<T>, s: T)
    requires Distinct(members) && s in members
    ensures var rest := Without(members, s);
            && Distinct(rest) && |rest| == |members| - 1
            && (forall i :: i in rest <==> i in members && i != s)
  {
    if members[0] != s {
      var tail := members[1..];
      assert Distinct(tail) by {
        forall i, j | 0 <= i < j < |tail| ensures tail[i] != tail[j] { assert members[i + 1] != members[j + 1]; }
      }
      assert s in tail;
      WithoutLaw(tail, s);
      var rest := Without(tail, s);
      assert Without(members, s) == [members[0]] + rest;
      forall k | 0 <= k < |tail| ensures tail[k] != members[0] { assert members[0] != members[k + 1]; }
      assert members[0] !in rest;
      assert Distinct([members[0]] + rest);
    } else {
      forall k | 0 <= k < |members| - 1 ensures members[1..][k] != s { assert members[k + 1] != members[0]; }
    }
  }

  lemma {:induction false} Associates<T>(a: seq<T>, b: seq<T>, c: seq<T>)
    ensures (a + b) + c == a + (b + c)
  {
  }

  ghost function Elements<T>(s: seq<T>): set<T> {
    set x | x in s
  }

  lemma {:induction false} DistinctSize<T>(s: seq<T>)
    requires Distinct(s)
    ensures |Elements(s)| == |s|
  {
    if s != [] {
      var init, last := s[..|s| - 1], s[|s| - 1];
      DistinctSize(init);
      assert last !in Elements(init) by {
        forall i | 0 <= i < |init| ensures init[i] != last { assert s[i] != s[|s| - 1]; }
      }
      assert Elements(s) == Elements(init) + {last} by { assert s == init + [last]; }
    }
  }

  lemma {:induction false} SizeIsBounded<T>(s: seq<T>)
    ensures |Elements(s)| <= |s|
  {
    if s != [] {
      var init, last := s[..|s| - 1], s[|s| - 1];
      SizeIsBounded(init);
      assert Elements(s) == Elements(init) + {last} by { assert s == init + [last]; }
    }
  }

  lemma {:induction false} SubsetSize<T>(a: set<T>, b: set<T>)
    requires a <= b
    ensures |a| <= |b|
  {
    assert b == a + (b - a);
  }
}
