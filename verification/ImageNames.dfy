/** Image references as they are written, and the proof that the evaluator reads their parts back. */
module ImageNames {
  import opened Wrappers
  import opened Subject
  import opened Eval

  /** A reference by its parts; without a registry the name is one of Docker Hub's. */
  datatype Name = Name(registry: Option<string>, path: string, tag: Option<string>, digest: Option<string>)

  function Prefix(n: Name): string {
    match n.registry case Some(r) => r + "/" case None => ""
  }

  function TagText(n: Name): string {
    match n.tag case Some(t) => ":" + t case None => ""
  }

  function DigestText(n: Name): string {
    match n.digest case Some(d) => "@" + d case None => ""
  }

  function Reference(n: Name): string {
    Prefix(n) + (n.path + TagText(n)) + DigestText(n)
  }

  predicate Without(s: string, c: char) {
    forall i :: 0 <= i < |s| ==> s[i] != c
  }

  /** What makes a first component a registry. */
  predicate NamesRegistry(s: string) {
    s == "localhost" || !Without(s, '.') || !Without(s, ':')
  }

  /** The first component of a path that has more than one is no registry. */
  predicate OnTheHub(path: string) {
    forall k :: 0 < k < |path| && path[k] == '/' && Without(path[..k], '/') ==> !NamesRegistry(path[..k])
  }

  predicate WellFormed(n: Name) {
    && n.path != "" && Without(n.path, '@') && Without(n.path, ':') && n.path[0] != '/'
    && (match n.registry case Some(r) => Without(r, '/') && Without(r, '@') && NamesRegistry(r) case None => OnTheHub(n.path))
    && (n.tag.Some? ==> n.tag.value != "" && Without(n.tag.value, '/') && Without(n.tag.value, '@') && Without(n.tag.value, ':'))
    && (n.digest.Some? ==> n.digest.value != "")
  }

  lemma {:induction false} FirstFound(a: string, c: char, b: string)
    requires Without(a, c)
    ensures FirstOf(a + [c] + b, c) == |a|
  {
    if a != "" {
      FirstFound(a[1..], c, b);
      assert (a + [c] + b)[1..] == a[1..] + [c] + b;
    }
  }

  lemma {:induction false} FirstMissing(a: string, c: char)
    requires Without(a, c)
    ensures FirstOf(a, c) == |a|
  {
    if a != "" {
      FirstMissing(a[1..], c);
    }
  }

  lemma {:induction false} ColonFound(a: string, b: string)
    requires Without(b, ':')
    ensures LastColon(a + ":" + b) == Some(|a|)
  {
    var s := a + ":" + b;
    if b == "" {
      assert s[|s| - 1] == ':';
    } else {
      ColonFound(a, b[..|b| - 1]);
      assert s[|s| - 1] == b[|b| - 1] && s[..|s| - 1] == a + ":" + b[..|b| - 1];
    }
  }

  lemma {:induction false} ColonMissing(a: string)
    requires Without(a, ':')
    ensures LastColon(a).None?
  {
    if a != "" {
      ColonMissing(a[..|a| - 1]);
    }
  }

  lemma WithoutConcat(a: string, b: string, c: char)
    requires Without(a, c) && Without(b, c)
    ensures Without(a + b, c)
  {
  }

  // ---- The three cuts --------------------------------------------------------------

  lemma CutAt(bare: string, digest: string)
    requires Without(bare, '@') && digest != ""
    ensures CutDigest(bare + ("@" + digest)) == (bare, Some(digest))
  {
    var image := bare + ("@" + digest);
    FirstFound(bare, '@', digest);
    assert image == bare + "@" + digest;
    assert image[..|bare|] == bare && image[|bare| + 1..] == digest;
  }

  lemma NoCut(bare: string)
    requires Without(bare, '@')
    ensures CutDigest(bare + "") == (bare, None)
  {
    FirstMissing(bare, '@');
    assert bare + "" == bare;
  }

  lemma BareOfAt(n: Name)
    requires WellFormed(n)
    ensures Without(Prefix(n) + (n.path + TagText(n)), '@')
  {
    WithoutConcat(n.path, TagText(n), '@');
    WithoutConcat(Prefix(n), n.path + TagText(n), '@');
  }

  lemma DigestCut(n: Name)
    requires WellFormed(n)
    ensures CutDigest(Reference(n)) == (Prefix(n) + (n.path + TagText(n)), n.digest)
  {
    var bare := Prefix(n) + (n.path + TagText(n));
    BareOfAt(n);
    match n.digest {
      case Some(d) => CutAt(bare, d);
      case None => NoCut(bare);
    }
  }

  lemma RegistryCut(n: Name)
    requires WellFormed(n) && n.registry.Some?
    ensures CutRegistry(Prefix(n) + (n.path + TagText(n))) == (n.registry.value, n.path + TagText(n))
  {
    var r, rest := n.registry.value, n.path + TagText(n);
    FirstFound(r, '/', rest);
    var bare := r + "/" + rest;
    assert bare[..|r|] == r && bare[|r| + 1..] == rest;
  }

  lemma HubCut(n: Name)
    requires WellFormed(n) && n.registry.None?
    ensures CutRegistry(Prefix(n) + (n.path + TagText(n))) == ("docker.io", n.path + TagText(n))
  {
    var bare := n.path + TagText(n);
    assert Prefix(n) + bare == bare;
    var slash := FirstOf(bare, '/');
    FirstIs(bare, '/');
    if slash < |bare| {
      SlashInPath(n.path, TagText(n), slash);
      NoRegistry(n.path[..slash]);
    }
  }

  lemma SlashInPath(path: string, tag: string, k: nat)
    requires Without(tag, '/') && k < |path + tag| && (path + tag)[k] == '/' && Without((path + tag)[..k], '/') && OnTheHub(path)
    requires path != "" && path[0] != '/'
    ensures k < |path| && (path + tag)[..k] == path[..k] && !NamesRegistry(path[..k])
  {
    assert (path + tag)[|path|..] == tag;
  }

  lemma NoRegistry(first: string)
    requires !NamesRegistry(first)
    ensures first != "localhost" && '.' !in first && ':' !in first
  {
  }

  lemma {:induction false} FirstIs(s: string, c: char)
    ensures FirstOf(s, c) <= |s| && Without(s[..FirstOf(s, c)], c) && (FirstOf(s, c) < |s| ==> s[FirstOf(s, c)] == c)
  {
    if s != "" && s[0] != c {
      FirstIs(s[1..], c);
      var k := FirstOf(s[1..], c);
      assert s[..k + 1] == [s[0]] + s[1..][..k];
    }
  }

  lemma TagCut(n: Name)
    requires WellFormed(n)
    ensures TagOf(n.path + TagText(n)) == n.tag
  {
    match n.tag {
      case Some(t) =>
        ColonFound(n.path, t);
        var rest := n.path + ":" + t;
        assert n.path + TagText(n) == rest;
        assert rest[|n.path| + 1..] == t;
      case None =>
        ColonMissing(n.path);
        assert n.path + TagText(n) == n.path;
    }
  }

  /** The evaluator reads back the registry, the tag and the digest a reference was written with;
      without a registry it is docker.io. */
  lemma ReferenceReadsBack(n: Name)
    requires WellFormed(n)
    ensures ParseImage(Reference(n)) == ImageRef(if n.registry.Some? then n.registry.value else "docker.io", n.tag, n.digest)
  {
    DigestCut(n);
    if n.registry.Some? {
      RegistryCut(n);
    } else {
      HubCut(n);
    }
    TagCut(n);
  }

  /** A reference is latest when it says so, or when it pins neither a tag nor a digest. */
  lemma LatestIff(n: Name)
    requires WellFormed(n)
    ensures ImageIsLatest(Reference(n)) <==> n.tag == Some("latest") || (n.tag.None? && n.digest.None?)
  {
    ReferenceReadsBack(n);
  }
}
