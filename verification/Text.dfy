/** Strings as the other modules need them: the byte order names are sorted in,
    and trimming a trailing run of one character. */
module Text {

  /** The order of Go's string comparison. */
  predicate Less(a: string, b: string) {
    if a == [] then b != []
    else if b == [] then false
    else a[0] < b[0] || (a[0] == b[0] && Less(a[1..], b[1..]))
  }

  /** A proper prefix, or the lesser character where the two first differ. */
  lemma {:induction false} LessIs(a: string, b: string)
    ensures Less(a, b) <==> a < b || exists k :: 0 <= k < |a| && k < |b| && a[..k] == b[..k] && a[k] < b[k]
  {
    if a != [] && b != [] {
      if a[0] == b[0] {
        LessIs(a[1..], b[1..]);
        assert a == [a[0]] + a[1..] && b == [b[0]] + b[1..];
        FirstDifference(a, b);
      } else {
        assert a[..0] == b[..0];
      }
    }
  }

  /** Where they differ, from the second character on. */
  lemma FirstDifference(a: string, b: string)
    requires a != [] && b != [] && a[0] == b[0]
    ensures (exists k :: 0 <= k < |a| && k < |b| && a[..k] == b[..k] && a[k] < b[k])
       <==> exists k :: 0 <= k < |a[1..]| && k < |b[1..]| && a[1..][..k] == b[1..][..k] && a[1..][k] < b[1..][k]
  {
    if k :| 0 <= k < |a| && k < |b| && a[..k] == b[..k] && a[k] < b[k] {
      assert k > 0 && a[1..][..k - 1] == a[..k][1..] && b[1..][..k - 1] == b[..k][1..];
      assert a[1..][k - 1] < b[1..][k - 1];
    }
    if k :| 0 <= k < |a[1..]| && k < |b[1..]| && a[1..][..k] == b[1..][..k] && a[1..][k] < b[1..][k] {
      assert a[..k + 1] == [a[0]] + a[1..][..k] && b[..k + 1] == [b[0]] + b[1..][..k];
      assert a[k + 1] < b[k + 1];
    }
  }

  lemma {:induction false} LessTrichotomy(a: string, b: string)
    ensures (Less(a, b) && a != b && !Less(b, a))
         || (!Less(a, b) && a == b && !Less(b, a))
         || (!Less(a, b) && a != b && Less(b, a))
  {
    if a != [] && b != [] {
      LessTrichotomy(a[1..], b[1..]);
      assert a == [a[0]] + a[1..] && b == [b[0]] + b[1..];
    }
  }

  lemma {:induction false} LessTransitive(a: string, b: string, c: string)
    requires Less(a, b) && Less(b, c)
    ensures Less(a, c)
  {
    if a != [] && b != [] && c != [] && a[0] == b[0] == c[0] {
      LessTransitive(a[1..], b[1..], c[1..]);
    }
  }

  predicate Sorted(s: seq<string>) {
    forall i, j :: 0 <= i < j < |s| ==> Less(s[i], s[j])
  }

  /** A strictly sorted sequence is determined by its elements. */
  lemma {:induction false} SortedUnique(s: seq<string>, t: seq<string>)
    requires Sorted(s) && Sorted(t)
    requires forall x :: x in s <==> x in t
    ensures s == t
  {
    assert (s != [] ==> s[0] in t) && (t != [] ==> t[0] in s);
    if s != [] && t != [] {
      assert s[0] in t && t[0] in s;
      var i :| 0 <= i < |t| && t[i] == s[0];
      var j :| 0 <= j < |s| && s[j] == t[0];
      LessTrichotomy(s[0], t[0]);
      forall x ensures x in s[1..] <==> x in t[1..] {
        LessTrichotomy(s[0], s[0]);
        if x in s[1..] {
          var k :| 1 <= k < |s| && s[k] == x;
          assert Less(s[0], x);
          assert x in t;
        }
        if x in t[1..] {
          var k :| 1 <= k < |t| && t[k] == x;
          assert Less(t[0], x);
          assert x in s;
        }
      }
      SortedUnique(s[1..], t[1..]);
      assert s == [s[0]] + s[1..] && t == [t[0]] + t[1..];
    }
  }

  /** strings.TrimRight(s, c) for one character c. */
  function TrimRight(s: string, c: char): (r: string)
    ensures |r| <= |s| && r == s[..|r|]
    ensures r != [] ==> r[|r| - 1] != c
    ensures forall i :: |r| <= i < |s| ==> s[i] == c
  {
    if s != [] && s[|s| - 1] == c then TrimRight(s[..|s| - 1], c) else s
  }

  lemma TrimRightNoop(s: string, c: char)
    requires s == [] || s[|s| - 1] != c
    ensures TrimRight(s, c) == s
  {
  }

  predicate Free(s: string, c: char) {
    forall i :: 0 <= i < |s| ==> s[i] != c
  }

  /** Two strings of the form u + [c] + v with u free of c agree in both parts. */
  lemma CutUnique(u: string, v: string, u': string, v': string, c: char)
    requires Free(u, c) && Free(u', c)
    requires u + [c] + v == u' + [c] + v'
    ensures u == u' && v == v'
  {
    var s := u + [c] + v;
    assert s[|u|] == c && s[|u'|] == c;
    assert forall i :: 0 <= i < |u| ==> s[i] == u[i];
    assert forall i :: 0 <= i < |u'| ==> s[i] == u'[i];
    assert u == s[..|u|] && u' == s[..|u'|];
    assert v == s[|u| + 1..] && v' == s[|u'| + 1..];
  }

  /** Two strings of the form u + [c] + v with v free of c agree in v. */
  lemma CutLast(u: string, v: string, u': string, v': string, c: char)
    requires Free(v, c) && Free(v', c)
    requires u + [c] + v == u' + [c] + v'
    ensures v == v'
  {
    var s := u + [c] + v;
    assert s[|u|] == c && s[|u'|] == c;
    assert forall i :: |u| < i < |s| ==> s[i] == v[i - |u| - 1];
    assert forall i :: |u'| < i < |s| ==> s[i] == v'[i - |u'| - 1];
    assert v == s[|u| + 1..] && v' == s[|u'| + 1..];
  }

  /** A set's strings in their order, whatever order they come in. */
  method SortedKeys(keys: set<string>) returns (names: seq<string>)
    ensures Sorted(names) && forall n :: n in names <==> n in keys
  {
    names := [];
    var todo := keys;
    while todo != {}
      invariant todo <= keys && Sorted(names)
      invariant forall n :: n in names <==> n in keys && n !in todo
    {
      var name :| name in todo;
      var i := 0;
      while i < |names| && Less(names[i], name)
        invariant 0 <= i <= |names| && forall j :: 0 <= j < i ==> Less(names[j], name)
      {
        i := i + 1;
      }
      forall j | i <= j < |names| ensures Less(name, names[j]) {
        LessTrichotomy(names[i], name);
        if i < j { LessTransitive(name, names[i], names[j]); }
      }
      names, todo := names[..i] + [name] + names[i..], todo - {name};
    }
  }
}
