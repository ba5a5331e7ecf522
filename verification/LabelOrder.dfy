/** The order a `BTreeMap<String, _>` iterates in: strings compared by their UTF-8 bytes. */
module LabelOrder {
  import opened Wrappers
  import opened Text

  predicate Less(a: seq<byte>, b: seq<byte>) {
    b != [] && (a == [] || a[0] < b[0] || (a[0] == b[0] && Less(a[1..], b[1..])))
  }

  predicate Before(a: string, b: string) {
    Less(Encode(a), Encode(b))
  }

  lemma {:induction false} LessIsStrict(a: seq<byte>, b: seq<byte>)
    ensures !(Less(a, b) && Less(b, a))
  {
    if a != [] && b != [] && a[0] == b[0] {
      LessIsStrict(a[1..], b[1..]);
    }
  }

  lemma {:induction false} LessIsTotal(a: seq<byte>, b: seq<byte>)
    ensures Less(a, b) || Less(b, a) || a == b
  {
    if a != [] && b != [] && a[0] == b[0] {
      LessIsTotal(a[1..], b[1..]);
      assert a == [a[0]] + a[1..] && b == [b[0]] + b[1..];
    }
  }

  lemma {:induction false} LessIsTransitive(a: seq<byte>, b: seq<byte>, c: seq<byte>)
    requires Less(a, b) && Less(b, c)
    ensures Less(a, c)
  {
    if a != [] && a[0] == b[0] == c[0] {
      LessIsTransitive(a[1..], b[1..], c[1..]);
    }
  }

  lemma BeforeIsStrict(a: string, b: string)
    ensures !(Before(a, b) && Before(b, a))
  {
    LessIsStrict(Encode(a), Encode(b));
  }

  lemma BeforeIsTotal(a: string, b: string)
    ensures Before(a, b) || Before(b, a) || a == b
  {
    LessIsTotal(Encode(a), Encode(b));
    DecodeEncode(a);
    DecodeEncode(b);
  }

  lemma BeforeIsTransitive(a: string, b: string, c: string)
    requires Before(a, b) && Before(b, c)
    ensures Before(a, c)
  {
    LessIsTransitive(Encode(a), Encode(b), Encode(c));
  }

  // ---- Keys in order ---------------------------------------------------------------

  predicate Ascending(keys: seq<string>) {
    forall i, j :: 0 <= i < j < |keys| ==> Before(keys[i], keys[j])
  }

  predicate Least(k: string, keys: set<string>) {
    k in keys && forall j :: j in keys && j != k ==> Before(k, j)
  }

  lemma {:induction false} LeastExists(keys: set<string>)
    requires keys != {}
    ensures exists k :: Least(k, keys)
  {
    var x :| x in keys;
    if keys == {x} {
      assert Least(x, keys);
    } else {
      LeastExists(keys - {x});
      var k :| Least(k, keys - {x});
      BeforeIsTotal(k, x);
      if Before(k, x) {
        assert Least(k, keys);
      } else {
        forall j | j in keys && j != x ensures Before(x, j) {
          if j != k {
            BeforeIsTransitive(x, k, j);
          }
        }
        assert Least(x, keys);
      }
    }
  }

  lemma ConsAscends(k: string, rest: seq<string>)
    requires Ascending(rest) && forall j :: j in rest ==> Before(k, j)
    ensures Ascending([k] + rest)
  {
    var r := [k] + rest;
    forall i, j | 0 <= i < j < |r| ensures Before(r[i], r[j]) {
      assert r[j] == rest[j - 1];
    }
  }

  /** The keys of a map as a `BTreeMap` iterates over them. */
  ghost function InOrder(keys: set<string>): (r: seq<string>)
    ensures Ascending(r) && |r| == |keys| && forall k :: k in r <==> k in keys
  {
    if keys == {} then [] else
      LeastExists(keys);
      var k :| Least(k, keys);
      ConsAscends(k, InOrder(keys - {k}));
      [k] + InOrder(keys - {k})
  }

  lemma FirstIsLeast(s: seq<string>)
    requires Ascending(s) && s != []
    ensures Least(s[0], set k | k in s) && s[0] !in s[1..]
  {
    if s[0] in s[1..] {
      var i :| 0 <= i < |s[1..]| && s[1..][i] == s[0];
      BeforeIsStrict(s[0], s[i + 1]);
    }
  }

  /** There is one way to list a set of keys in ascending order. */
  lemma {:induction false} AscendingIsUnique(s: seq<string>, t: seq<string>)
    requires Ascending(s) && Ascending(t) && forall k :: k in s <==> k in t
    ensures s == t
  {
    assert t != [] ==> t[0] in t;
    if s != [] {
      assert s[0] in t;
      FirstIsLeast(s);
      FirstIsLeast(t);
      BeforeIsStrict(s[0], t[0]);
      assert s[0] == t[0];
      assert s == [s[0]] + s[1..] && t == [t[0]] + t[1..];
      forall k ensures k in s[1..] <==> k in t[1..] {
        assert k in s[1..] ==> k in t;
        assert k in t[1..] ==> k in s;
      }
      AscendingIsUnique(s[1..], t[1..]);
    }
  }
}
