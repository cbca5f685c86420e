/** Service keys of naming/naming.go, and the prefix by which registry/etcd/registry.go lists them. */
module Naming {
  const ROOT := "/fyerrpc/services/"

  datatype Parsed = Invalid | Key(service: string, version: string, id: string)

  function BuildServiceKey(service: string, version: string, id: string): string {
    ROOT + (service + "/" + (version + "/" + id))
  }

  /** strings.Split(s, "/") */
  function Split(s: string): (parts: seq<string>)
    ensures |parts| >= 1
  {
    if s == "" then [""]
    else
      var rest := Split(s[1..]);
      if s[0] == '/' then [""] + rest else [[s[0]] + rest[0]] + rest[1..]
  }

  function ParseServiceKey(key: string): Parsed {
    var parts := Split(key);
    if |parts| != 6 then Invalid else Key(parts[3], parts[4], parts[5])
  }

  /** The prefix that ListServices queries. */
  function ListPrefix(service: string, version: string): string {
    ROOT + (service + "/" + (version + "/"))
  }

  predicate SlashFree(s: string) { '/' !in s }

  function Slashes(s: string): nat {
    if s == "" then 0 else Slashes(s[1..]) + if s[0] == '/' then 1 else 0
  }

  lemma {:induction false} SplitCounts(s: string)
    ensures |Split(s)| == Slashes(s) + 1
    ensures Slashes(s) == 0 <==> SlashFree(s)
  {
    if s == "" {
    } else {
      SplitCounts(s[1..]);
      assert s == [s[0]] + s[1..];
    }
  }

  lemma {:induction false} SlashesAdd(s: string, t: string)
    ensures Slashes(s + t) == Slashes(s) + Slashes(t)
  {
    if s == "" {
      assert s + t == t;
    } else {
      SlashesAdd(s[1..], t);
      assert (s + t)[1..] == s[1..] + t;
    }
  }

  /** A slash-free start up to a slash is the first part. */
  lemma {:induction false} SplitFirst(s: string, t: string)
    requires SlashFree(s)
    ensures Split(s + "/" + t) == [s] + Split(t)
  {
    var all := s + "/" + t;
    if s == "" {
      assert all[1..] == t;
    } else {
      SplitFirst(s[1..], t);
      assert all[1..] == s[1..] + "/" + t;
      assert [s[0]] + s[1..] == s;
    }
  }

  lemma {:induction false} SplitLast(s: string)
    requires SlashFree(s)
    ensures Split(s) == [s]
  {
    if s == "" {
    } else {
      SplitLast(s[1..]);
      assert [s[0]] + s[1..] == s;
    }
  }

  lemma SplitRoot(t: string)
    ensures Split(ROOT + t) == ["", "fyerrpc", "services"] + Split(t)
  {
    hide Split;
    var r := "services" + "/" + t;
    var q := "fyerrpc" + "/" + r;
    SplitFirst("services", t);
    SplitFirst("fyerrpc", r);
    SplitFirst("", q);
    assert ROOT == "" + "/" + "fyerrpc" + "/" + "services" + "/";
    assert ROOT + t == "" + "/" + q;
  }

  lemma KeySlashes(service: string, version: string, id: string)
    ensures Slashes(BuildServiceKey(service, version, id)) == 5 + Slashes(service) + Slashes(version) + Slashes(id)
  {
    SplitRoot("");
    SplitCounts(ROOT + "");
    assert ROOT + "" == ROOT;
    SlashesAdd(ROOT, service + "/" + (version + "/" + id));
    SlashesAdd(service + "/", version + "/" + id);
    SlashesAdd(service, "/");
    SlashesAdd(version + "/", id);
    SlashesAdd(version, "/");
  }

  /** Parsing undoes building exactly for parts without slashes, and rejects every other built key. */
  lemma ParseUndoesBuild(service: string, version: string, id: string)
    ensures var plain := SlashFree(service) && SlashFree(version) && SlashFree(id);
            ParseServiceKey(BuildServiceKey(service, version, id)) ==
            if plain then Key(service, version, id) else Invalid
  {
    SplitCounts(service);
    SplitCounts(version);
    SplitCounts(id);
    KeySlashes(service, version, id);
    SplitCounts(BuildServiceKey(service, version, id));
    if SlashFree(service) && SlashFree(version) && SlashFree(id) {
      SplitRoot(service + "/" + (version + "/" + id));
      SplitFirst(service, version + "/" + id);
      SplitFirst(version, id);
      SplitLast(id);
    }
  }

  /** Two texts that start slash-free up to a slash agree on that start when one begins the other. */
  lemma SameFirstPart(a: string, x: string, b: string, y: string)
    requires SlashFree(a) && SlashFree(b)
    ensures a + "/" + x <= b + "/" + y <==> a == b && x <= y
  {
    var s, t := a + "/" + x, b + "/" + y;
    if s <= t {
      assert t[|a|] == s[|a|] == '/';
      assert t[|b|] == '/';
      assert a == s[..|a|] == t[..|a|] == b;
      assert x == s[|a| + 1..] && y == t[|a| + 1..];
      assert x <= y;
    }
    if a == b && x <= y {
      assert y == x + y[|x|..];
      assert t == s + y[|x|..];
    }
  }

  lemma RootPrefix(x: string, y: string)
    ensures ROOT + x <= ROOT + y <==> x <= y
  {
    assert (ROOT + x)[|ROOT|..] == x && (ROOT + y)[|ROOT|..] == y;
    if x <= y {
      assert ROOT + y == ROOT + x + y[|x|..];
    }
  }

  /** For slash-free names and versions a built key starts with the list prefix of (s, v) exactly when it
      was built for service s and version v, whatever its ID: a prefix query returns that
      service's instances and no others. */
  lemma PrefixQueryIsExact(s: string, v: string, service: string, version: string, id: string)
    requires SlashFree(s) && SlashFree(v) && SlashFree(service) && SlashFree(version)
    ensures ListPrefix(s, v) <= BuildServiceKey(service, version, id) <==> s == service && v == version
  {
    RootPrefix(s + "/" + (v + "/"), service + "/" + (version + "/" + id));
    SameFirstPart(s, v + "/", service, version + "/" + id);
    assert v + "/" == v + "/" + "";
    SameFirstPart(v, "", version, id);
  }

  lemma PrefixSlashes(s: string, v: string)
    ensures Slashes(ListPrefix(s, v)) == 5 + Slashes(s) + Slashes(v)
  {
    KeySlashes(s, v, "");
    assert ListPrefix(s, v) == BuildServiceKey(s, v, "");
  }

  /** The query for (s, v) lists the key, which was built for another service or version. */
  predicate ListedByAnother(s: string, v: string, service: string, version: string, id: string) {
    ListPrefix(s, v) <= BuildServiceKey(service, version, id) && (s != service || v != version)
  }

  lemma SlashAt(t: string) returns (k: nat)
    requires !SlashFree(t)
    ensures k < |t| && t == t[..k] + "/" + t[k + 1..]
  {
    k :| 0 <= k < |t| && t[k] == '/';
  }

  /** Text that goes on after a list prefix. */
  lemma ListedWhenSplit(s: string, v: string, rest: string, service: string, version: string, id: string)
    requires s + "/" + v + "/" + rest == service + "/" + version + "/" + id
    ensures ListPrefix(s, v) <= BuildServiceKey(service, version, id)
  {
    assert ListPrefix(s, v) + rest == ROOT + (s + "/" + v + "/" + rest);
    assert BuildServiceKey(service, version, id) == ROOT + (service + "/" + version + "/" + id);
  }

  lemma AnotherQuery(service: string, version: string, id: string) returns (s: string, v: string)
    requires !(SlashFree(service) && SlashFree(version) && SlashFree(id))
    ensures ListedByAnother(s, v, service, version, id)
  {
    hide ListPrefix, BuildServiceKey, SlashFree;
    if !SlashFree(service) {
      var k := SlashAt(service);
      s, v := service[..k], service[k + 1..];
      ListedWhenSplit(s, v, version + "/" + id, service, version, id);
    } else if !SlashFree(version) {
      var k := SlashAt(version);
      s, v := service, version[..k];
      ListedWhenSplit(s, v, version[k + 1..] + "/" + id, service, version, id);
    } else {
      var k := SlashAt(id);
      s, v := service + "/" + version, id[..k];
      ListedWhenSplit(s, v, id[k + 1..], service, version, id);
    }
  }

  /** The query of some other service or version also lists a built key exactly when one of its three
      parts contains a slash. */
  lemma ListedByAnotherIff(service: string, version: string, id: string)
    ensures (exists s, v :: ListedByAnother(s, v, service, version, id)) <==>
            !(SlashFree(service) && SlashFree(version) && SlashFree(id))
  {
    hide ListedByAnother;
    if SlashFree(service) && SlashFree(version) && SlashFree(id) {
      forall s, v ensures !ListedByAnother(s, v, service, version, id) {
        NotListedByAnother(s, v, service, version, id);
      }
    } else {
      var s, v := AnotherQuery(service, version, id);
    }
  }

  lemma NotListedByAnother(s: string, v: string, service: string, version: string, id: string)
    requires SlashFree(service) && SlashFree(version) && SlashFree(id)
    ensures !ListedByAnother(s, v, service, version, id)
  {
    var prefix, key := ListPrefix(s, v), BuildServiceKey(service, version, id);
    if prefix <= key {
      PrefixSlashes(s, v);
      KeySlashes(service, version, id);
      SlashesAdd(prefix, key[|prefix|..]);
      assert key == prefix + key[|prefix|..];
      SplitCounts(s);
      SplitCounts(v);
      SplitCounts(service);
      SplitCounts(version);
      SplitCounts(id);
      PrefixQueryIsExact(s, v, service, version, id);
    }
  }
}
