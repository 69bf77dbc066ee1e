/** Byte-wise string order, and a set of names or keys as an ascending list: the order of sort.Strings
    over file names and of a bbolt bucket over its keys. */
module Names {

  predicate Less(s: string, t: string) {
    if t == [] then false
    else if s == [] then true
    else if s[0] != t[0] then s[0] < t[0]
    else Less(s[1..], t[1..])
  }

  predicate HasPrefix(s: string, prefix: string) {
    |prefix| <= |s| && s[..|prefix|] == prefix
  }

  predicate Ascends(names: seq<string>) {
    forall i, j :: 0 <= i < j < |names| ==> Less(names[i], names[j])
  }

  lemma {:induction false} LessTotal(s: string, t: string)
    ensures Less(s, t) || s == t || Less(t, s)
    ensures !(Less(s, t) && Less(t, s)) && (s == t ==> !Less(s, t))
  {
    if s != [] && t != [] && s[0] == t[0] {
      LessTotal(s[1..], t[1..]);
      assert s == [s[0]] + s[1..] && t == [t[0]] + t[1..];
    }
  }

  lemma {:induction false} LessTransitive(s: string, t: string, u: string)
    requires Less(s, t) && Less(t, u)
    ensures Less(s, u)
  {
    if s != [] && s[0] == t[0] && t[0] == u[0] {
      LessTransitive(s[1..], t[1..], u[1..]);
    }
  }

  /** The names with a given prefix are a contiguous run: nothing else sorts between two of them. */
  lemma {:induction false} PrefixConvex(prefix: string, s: string, t: string, u: string)
    requires HasPrefix(s, prefix) && HasPrefix(u, prefix)
    requires (s == t || Less(s, t)) && (t == u || Less(t, u))
    ensures HasPrefix(t, prefix)
  {
    if prefix != [] && s != t && t != u {
      assert s[0] == prefix[0] == u[0];
      assert t != [] && t[0] == prefix[0];
      assert HasPrefix(s[1..], prefix[1..]) by { assert s[1..][..|prefix| - 1] == s[..|prefix|][1..]; }
      assert HasPrefix(u[1..], prefix[1..]) by { assert u[1..][..|prefix| - 1] == u[..|prefix|][1..]; }
      PrefixConvex(prefix[1..], s[1..], t[1..], u[1..]);
      assert t[..|prefix|] == [t[0]] + t[1..][..|prefix| - 1];
      assert prefix == [prefix[0]] + prefix[1..];
    }
  }

  /** The prefix itself sorts no later than any name that has it. */
  lemma {:induction false} PrefixFirst(prefix: string, s: string)
    requires HasPrefix(s, prefix)
    ensures s == prefix || Less(prefix, s)
  {
    if prefix != [] {
      assert s[0] == prefix[0];
      assert HasPrefix(s[1..], prefix[1..]) by { assert s[1..][..|prefix| - 1] == s[..|prefix|][1..]; }
      PrefixFirst(prefix[1..], s[1..]);
      assert s == [s[0]] + s[1..] && prefix == [prefix[0]] + prefix[1..];
    }
  }

  // ---- sorting ----

  predicate IsLeast(least: string, names: set<string>) {
    least in names && forall s <- names :: s == least || Less(least, s)
  }

  lemma LeastExtends(x: string, y: string, rest: set<string>)
    requires IsLeast(y, rest)
    ensures IsLeast(x, rest + {x}) || IsLeast(y, rest + {x})
  {
    LessTotal(x, y);
    if Less(x, y) {
      forall s <- rest + {x} ensures s == x || Less(x, s) {
        if s != x && s != y {
          LessTransitive(x, y, s);
        }
      }
    }
  }

  lemma {:induction false} LeastExists(names: set<string>)
    requires names != {}
    ensures exists least :: IsLeast(least, names)
  {
    var x :| x in names;
    var rest := names - {x};
    assert names == rest + {x};
    if rest == {} {
      assert IsLeast(x, names);
    } else {
      LeastExists(rest);
      var y :| IsLeast(y, rest);
      LeastExtends(x, y, rest);
    }
  }

  lemma LeastUnique(names: set<string>)
    ensures forall x, y :: IsLeast(x, names) && IsLeast(y, names) ==> x == y
  {
    forall x, y | IsLeast(x, names) && IsLeast(y, names) ensures x == y {
      LessTotal(x, y);
    }
  }

  function Least(names: set<string>): (least: string)
    requires names != {}
    ensures IsLeast(least, names)
  {
    LeastExists(names);
    LeastUnique(names);
    var least :| least in names && IsLeast(least, names);
    least
  }

  /** The names in ascending order. */
  function Sorted(names: set<string>): (list: seq<string>)
    ensures Ascends(list) && forall s :: s in list <==> s in names
    ensures |list| == |names|
  {
    if names == {} then []
    else
      var least := Least(names);
      assert names == names - {least} + {least};
      [least] + Sorted(names - {least})
  }

  /** An ascending list is the only one with its elements. */
  lemma {:induction false} SortedUnique(x: seq<string>, y: seq<string>)
    requires Ascends(x) && Ascends(y) && forall s :: s in x <==> s in y
    ensures x == y
  {
    if x != [] || y != [] {
      assert x != [] ==> x[0] in x && x[0] in y;
      assert y != [] ==> y[0] in y && y[0] in x;
      LessTotal(x[0], y[0]);
      forall s ensures s in x[1..] <==> s in y[1..] {
        LessTotal(x[0], x[0]);
        assert s in x <==> s == x[0] || s in x[1..];
        assert s in y <==> s == y[0] || s in y[1..];
        assert x[0] !in x[1..] && y[0] !in y[1..];
      }
      SortedUnique(x[1..], y[1..]);
    }
  }

  lemma SortedIs(names: set<string>, list: seq<string>)
    requires Ascends(list) && forall s :: s in list <==> s in names
    ensures Sorted(names) == list
  {
    SortedUnique(Sorted(names), list);
  }
}
