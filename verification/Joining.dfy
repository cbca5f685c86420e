/** Two texts joined by a separator, as the keys of the registry and of the discovery cache are. */
module Joining {
  function Join(a: string, sep: char, b: string): string {
    a + [sep] + b
  }

  /** Some other two texts join to the same text. */
  ghost predicate JoinedOtherwise(a: string, sep: char, b: string) {
    exists x, y :: Join(x, sep, y) == Join(a, sep, b) && (x != a || y != b)
  }

  /** Joined texts can be told apart exactly when neither contains the separator. */
  lemma JoinedOtherwiseIff(a: string, sep: char, b: string)
    ensures JoinedOtherwise(a, sep, b) <==> sep in a || sep in b
  {
    var t := Join(a, sep, b);
    if sep in a {
      var k :| 0 <= k < |a| && a[k] == sep;
      assert a == a[..k] + [sep] + a[k + 1..];
      assert Join(a[..k], sep, a[k + 1..] + [sep] + b) == t;
    } else if sep in b {
      var k :| 0 <= k < |b| && b[k] == sep;
      assert b == b[..k] + [sep] + b[k + 1..];
      assert Join(a + [sep] + b[..k], sep, b[k + 1..]) == t;
    } else {
      forall x, y | Join(x, sep, y) == t ensures x == a && y == b {
        OneSeparator(a, sep, b, |x|);
        assert t[|x|] == sep;
        assert x == t[..|x|] && y == t[|x| + 1..];
        assert a == t[..|a|] && b == t[|a| + 1..];
      }
    }
  }

  lemma OneSeparator(a: string, sep: char, b: string, k: nat)
    requires sep !in a && sep !in b && k < |Join(a, sep, b)|
    ensures Join(a, sep, b)[k] == sep <==> k == |a|
  {
    if k > |a| {
      assert Join(a, sep, b)[k] == b[k - |a| - 1];
    }
  }

  lemma FirstPartsAgree(a: string, sep: char, b: string, x: string, y: string)
    requires sep !in a && sep !in x
    ensures Join(a, sep, b) == Join(x, sep, y) <==> a == x && b == y
  {
    var s, t := Join(a, sep, b), Join(x, sep, y);
    if s == t {
      assert s[|a|] == sep && t[|x|] == sep;
      assert a == s[..|a|] && x == t[..|x|];
      assert b == s[|a| + 1..] && y == t[|x| + 1..];
    }
  }
}
