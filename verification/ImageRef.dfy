/** Image references: parsing with its defaults, and the canonical form. */
module ImageRef {
  import opened Common

  datatype OciRef = OciRef(registry: string, repo: string, reference: string)

  const DOCKER := "registry-1.docker.io"
  const DIGEST := "sha256:"

  // ----- string helpers -----

  /** Unicode white space, as `trim` sees it. */
  predicate Space(c: char) {
    var n := c as int;
    9 <= n <= 13 || n == 32 || n == 0x85 || n == 0xA0 || n == 0x1680 || 0x2000 <= n <= 0x200A
    || n == 0x2028 || n == 0x2029 || n == 0x202F || n == 0x205F || n == 0x3000
  }

  predicate Trimmed(s: string) {
    s != "" ==> !Space(s[0]) && !Space(s[|s| - 1])
  }

  function Trim(s: string): (t: string)
    ensures Trimmed(t)
    ensures Trimmed(s) ==> t == s
  {
    if s == "" then s
    else if Space(s[0]) then Trim(s[1..])
    else if Space(s[|s| - 1]) then Trim(s[..|s| - 1])
    else s
  }

  function SplitOnce(s: string, c: char): (r: Option<(string, string)>)
    ensures r == None <==> c !in s
    ensures r.Some? ==> c !in r.value.0 && s == r.value.0 + [c] + r.value.1
  {
    if s == "" then None
    else if s[0] == c then Some(("", s[1..]))
    else
      match SplitOnce(s[1..], c)
      case None => None
      case Some(r) => Some(([s[0]] + r.0, r.1))
  }

  function RSplitOnce(s: string, c: char): (r: Option<(string, string)>)
    ensures r == None <==> c !in s
    ensures r.Some? ==> c !in r.value.1 && s == r.value.0 + [c] + r.value.1
  {
    if s == "" then None
    else
      var init, last := s[..|s| - 1], s[|s| - 1];
      assert s == init + [last];
      if last == c then Some((init, ""))
      else
        match RSplitOnce(init, c)
        case None => None
        case Some(r) => Some((r.0, r.1 + [last]))
  }

  lemma {:induction false} SplitsAt(a: string, c: char, b: string)
    requires c !in a
    ensures SplitOnce(a + [c] + b, c) == Some((a, b))
  {
    var s := a + [c] + b;
    if a == "" {
      assert s[0] == c && s[1..] == b;
    } else {
      assert s[1..] == a[1..] + [c] + b && s[0] == a[0];
      SplitsAt(a[1..], c, b);
      assert a == [a[0]] + a[1..];
    }
  }

  lemma {:induction false} RSplitsAt(a: string, c: char, b: string)
    requires c !in b
    ensures RSplitOnce(a + [c] + b, c) == Some((a, b))
  {
    var s := a + [c] + b;
    if b == "" {
      assert s[|s| - 1] == c && s[..|s| - 1] == a;
    } else {
      var init := b[..|b| - 1];
      assert s[..|s| - 1] == a + [c] + init && s[|s| - 1] == b[|b| - 1];
      assert b == init + [b[|b| - 1]];
      RSplitsAt(a, c, init);
    }
  }

  // ----- parsing -----

  predicate IsHost(first: string) {
    '.' in first || ':' in first || first == "localhost"
  }

  /** Name and optional digest. */
  function SplitDigest(s: string): Result<(string, Option<string>)> {
    match SplitOnce(s, '@')
    case None => Ok((s, None))
    case Some(r) => if DIGEST <= r.1 then Ok((r.0, Some(r.1))) else Err("digest")
  }

  function SplitRegistry(name: string): (string, string) {
    match SplitOnce(name, '/')
    case None => (DOCKER, name)
    case Some(r) => if IsHost(r.0) then r else (DOCKER, name)
  }

  function SplitTag(remainder: string): (string, Option<string>) {
    match RSplitOnce(remainder, ':')
    case None => (remainder, None)
    case Some(r) => if '/' !in r.1 && r.1 != "" then (r.0, Some(r.1)) else (remainder, None)
  }

  /** The official library is spelt out. */
  function WithLibrary(registry: string, repo: string): string {
    if registry == DOCKER && '/' !in repo then "library/" + repo else repo
  }

  function ParseTrimmed(s: string): Result<OciRef> {
    if s == "" then Err("empty")
    else
      match SplitDigest(s)
      case Err(e) => Err(e)
      case Ok(nd) =>
        var (registry, remainder) := SplitRegistry(nd.0);
        var (repo, tag) := if nd.1.Some? then (remainder, None) else SplitTag(remainder);
        if repo == "" then Err("repo")
        else
          Ok(OciRef(registry, WithLibrary(registry, repo), if nd.1.Some? then nd.1.value else if tag.Some? then tag.value else "latest"))
  }

  function ParseRef(s: string): Result<OciRef> {
    ParseTrimmed(Trim(s))
  }

  function Canonical(r: OciRef): string {
    r.registry + ['/'] + r.repo + [if DIGEST <= r.reference then '@' else ':'] + r.reference
  }

  // ----- what parsing accepts -----

  predicate EndsWell(s: string) {
    s != "" && !Space(s[|s| - 1])
  }

  predicate RegistryOk(g: string) {
    IsHost(g) && g != "" && !Space(g[0]) && '/' !in g && '@' !in g
  }

  predicate ReferenceOk(t: string) {
    EndsWell(t) && (DIGEST <= t || (':' !in t && '/' !in t && '@' !in t))
  }

  /** The references that parsing can yield. */
  predicate WellFormed(r: OciRef) {
    && RegistryOk(r.registry) && ReferenceOk(r.reference)
    && r.repo != "" && '@' !in r.repo && (r.registry == DOCKER ==> '/' in r.repo)
  }

  lemma RegistryPart(name: string)
    requires name != "" && '@' !in name && !Space(name[0])
    ensures var (g, rest) := SplitRegistry(name); RegistryOk(g) && '@' !in rest
    ensures var (g, rest) := SplitRegistry(name); rest != "" ==> rest[|rest| - 1] == name[|name| - 1]
  {
    assert '.' in DOCKER by { assert DOCKER[10] == '.'; }
    match SplitOnce(name, '/')
    case None =>
    case Some(r) =>
      assert name == r.0 + ['/'] + r.1;
      assert IsHost(r.0) ==> r.0 != "" && r.0[0] == name[0];
      forall c | c in r.0 || c in r.1 ensures c in name {
        assert c in r.0 + ['/'] + r.1;
      }
  }

  lemma TagPart(remainder: string)
    requires remainder != "" ==> !Space(remainder[|remainder| - 1])
    requires '@' !in remainder
    ensures var (repo, tag) := SplitTag(remainder); '@' !in repo && (tag.Some? ==> ReferenceOk(tag.value))
  {
    match RSplitOnce(remainder, ':')
    case None =>
    case Some(r) =>
      assert remainder == r.0 + [':'] + r.1;
      forall c | c in r.0 || c in r.1 ensures c in remainder {
        assert c in r.0 + [':'] + r.1;
      }
      assert r.1 != "" ==> r.1[|r.1| - 1] == remainder[|remainder| - 1];
  }

  lemma LibraryOk(registry: string, repo: string)
    requires repo != "" && '@' !in repo
    ensures var full := WithLibrary(registry, repo); full != "" && '@' !in full && (registry == DOCKER ==> '/' in full)
  {
    assert "library/"[7] == '/';
    assert ("library/" + repo)[7] == '/';
  }

  lemma DigestPart(t: string)
    requires t != "" && Trimmed(t) && SplitDigest(t).Ok?
    ensures var nd := SplitDigest(t).value;
            && '@' !in nd.0 && (nd.0 != "" ==> !Space(nd.0[0]))
            && (nd.1.Some? ==> ReferenceOk(nd.1.value)) && (nd.1 == None ==> nd.0 == t)
  {
    var nd := SplitDigest(t).value;
    if nd.1.Some? {
      assert t == nd.0 + ['@'] + nd.1.value;
      assert t[|t| - 1] == nd.1.value[|nd.1.value| - 1];
    }
  }

  lemma Assembled(name: string, repo: string, reference: string)
    requires name != "" && '@' !in name && !Space(name[0]) && repo != "" && '@' !in repo && ReferenceOk(reference)
    ensures var g := SplitRegistry(name).0; WellFormed(OciRef(g, WithLibrary(g, repo), reference))
  {
    RegistryPart(name);
    LibraryOk(SplitRegistry(name).0, repo);
  }

  lemma TrimmedParse(t: string)
    requires Trimmed(t) && ParseTrimmed(t).Ok?
    ensures WellFormed(ParseTrimmed(t).value)
  {
    DigestPart(t);
    var nd := SplitDigest(t).value;
    var remainder := SplitRegistry(nd.0).1;
    if nd.0 != "" {
      RegistryPart(nd.0);
    }
    if nd.1.Some? {
      Assembled(nd.0, remainder, nd.1.value);
    } else {
      TagPart(remainder);
      var (repo, tag) := SplitTag(remainder);
      Assembled(nd.0, repo, if tag.Some? then tag.value else "latest");
    }
  }

  /** Every accepted string yields a well-formed reference. */
  lemma ParsedIsWellFormed(s: string)
    requires ParseRef(s).Ok?
    ensures WellFormed(ParseRef(s).value)
  {
    TrimmedParse(Trim(s));
  }

  /** A well-formed reference is read back from its canonical form. */
  lemma CanonicalParses(r: OciRef)
    requires WellFormed(r)
    ensures ParseRef(Canonical(r)) == Ok(r)
  {
    var s := Canonical(r);
    var name := r.registry + ['/'] + r.repo;
    assert s[0] == r.registry[0] && s[|s| - 1] == r.reference[|r.reference| - 1];
    assert Trim(s) == s;
    if DIGEST <= r.reference {
      SplitsAt(name, '@', r.reference);
      SplitsAt(r.registry, '/', r.repo);
      assert SplitDigest(s) == Ok((name, Some(r.reference)));
    } else {
      assert '@' !in s;
      assert SplitDigest(s) == Ok((s, None));
      assert s == r.registry + ['/'] + (r.repo + [':'] + r.reference);
      SplitsAt(r.registry, '/', r.repo + [':'] + r.reference);
      RSplitsAt(r.repo, ':', r.reference);
    }
  }

  /** MAIN: for every string that parses, parsing the canonical form of the result gives
      the same reference — defaults, `library/`, tags and digests included. */
  lemma ParseIsStable(s: string)
    requires ParseRef(s).Ok?
    ensures ParseRef(Canonical(ParseRef(s).value)) == ParseRef(s)
  {
    ParsedIsWellFormed(s);
    CanonicalParses(ParseRef(s).value);
  }

  /** MAIN: the well-formed references are exactly those parsing can yield, and each is
      read back from its own canonical form and from no other's. */
  lemma YieldedIff(r: OciRef)
    ensures WellFormed(r) <==> exists s :: ParseRef(s) == Ok(r)
    ensures forall q :: WellFormed(r) && WellFormed(q) && Canonical(q) == Canonical(r) ==> q == r
  {
    if WellFormed(r) { CanonicalParses(r); }
    forall s | ParseRef(s) == Ok(r) ensures WellFormed(r) { ParsedIsWellFormed(s); }
    forall q | WellFormed(r) && WellFormed(q) && Canonical(q) == Canonical(r) ensures q == r { CanonicalParses(q); }
  }

  // ----- the defaults, spelt out -----

  predicate Bare(n: string) {
    n != "" && Trimmed(n) && '/' !in n && ':' !in n && '@' !in n
  }

  /** A bare name is the official image of that name, latest version. */
  lemma BareName(n: string)
    requires Bare(n)
    ensures ParseRef(n) == Ok(OciRef("registry-1.docker.io", "library/" + n, "latest"))
  {
    assert SplitDigest(n) == Ok((n, None)) && SplitRegistry(n) == (DOCKER, n) && SplitTag(n) == (n, None);
  }

  /** A tag behind it is the version. */
  lemma TaggedName(n: string, t: string)
    requires Bare(n) && Bare(t)
    ensures ParseRef(n + ":" + t) == Ok(OciRef("registry-1.docker.io", "library/" + n, t))
  {
    var s := n + [':'] + t;
    assert s[0] == n[0] && s[|s| - 1] == t[|t| - 1];
    RSplitsAt(n, ':', t);
    assert '@' !in s && '/' !in s;
    assert SplitDigest(s) == Ok((s, None)) && SplitRegistry(s) == (DOCKER, s) && SplitTag(s) == (n, Some(t));
    assert n + ":" + t == s;
  }

  /** Behind a host name with a dot, a colon or `localhost` the repository is taken as it is,
      with its tag, its digest, or the latest version. */
  lemma HostedName(h: string, r: string, t: string, d: string)
    requires ('.' in h || ':' in h || h == "localhost") && h != "" && !Space(h[0]) && '/' !in h && '@' !in h && h != "registry-1.docker.io"
    requires Bare(r) && Bare(t) && EndsWell(d) && "sha256:" <= d
    ensures ParseRef(h + "/" + r + ":" + t) == Ok(OciRef(h, r, t))
    ensures ParseRef(h + "/" + r + "@" + d) == Ok(OciRef(h, r, d))
    ensures ParseRef(h + "/" + r) == Ok(OciRef(h, r, "latest"))
  {
    CanonicalParses(OciRef(h, r, t));
    CanonicalParses(OciRef(h, r, d));
    assert !(DIGEST <= t) by { assert DIGEST[6] == ':'; }
    assert Canonical(OciRef(h, r, t)) == h + "/" + r + ":" + t;
    assert Canonical(OciRef(h, r, d)) == h + "/" + r + "@" + d;
    HostedLatest(h, r);
  }

  lemma HostedLatest(h: string, r: string)
    requires RegistryOk(h) && h != DOCKER && Bare(r)
    ensures ParseRef(h + "/" + r) == Ok(OciRef(h, r, "latest"))
  {
    var s := h + ['/'] + r;
    assert s[0] == h[0] && s[|s| - 1] == r[|r| - 1];
    SplitsAt(h, '/', r);
    assert '@' !in s;
    assert SplitDigest(s) == Ok((s, None)) && SplitRegistry(s) == (h, r) && SplitTag(r) == (r, None);
    assert h + "/" + r == s;
  }

  /** Any other first segment belongs to the repository. */
  lemma PathName(a: string, b: string)
    requires Bare(a) && Bare(b) && '.' !in a && a != "localhost"
    ensures ParseRef(a + "/" + b) == Ok(OciRef("registry-1.docker.io", a + "/" + b, "latest"))
  {
    var s := a + ['/'] + b;
    assert s[0] == a[0] && s[|s| - 1] == b[|b| - 1];
    SplitsAt(a, '/', b);
    assert '@' !in s && ':' !in s && s[|a|] == '/';
    assert SplitDigest(s) == Ok((s, None)) && SplitRegistry(s) == (DOCKER, s) && SplitTag(s) == (s, None);
    assert a + "/" + b == s;
  }

  lemma {:induction false} TrimMeans(x: string, s: string, y: string)
    requires s != "" && Trimmed(s) && (forall c :: c in x ==> Space(c)) && (forall c :: c in y ==> Space(c))
    ensures Trim(x + s + y) == s
  {
    var t := x + s + y;
    if x != "" {
      assert t[0] == x[0] && x[0] in x && t[1..] == x[1..] + s + y;
      TrimMeans(x[1..], s, y);
    } else if y != "" {
      assert t[0] == s[0] && t[|t| - 1] == y[|y| - 1] && y[|y| - 1] in y && t[..|t| - 1] == x + s + y[..|y| - 1];
      TrimMeans(x, s, y[..|y| - 1]);
    } else {
      assert t == s;
    }
  }

  /** White space around a reference does not matter; blanks, tabs and line ends are such,
      letters are not. */
  lemma Padding(x: string, s: string, y: string)
    requires s != "" && Trimmed(s) && (forall c :: c in x ==> Space(c)) && (forall c :: c in y ==> Space(c))
    ensures ParseRef(x + s + y) == ParseRef(s)
    ensures Space(' ') && Space('\t') && Space('\n') && Space('\r') && forall c :: 'a' <= c <= 'z' ==> !Space(c)
  {
    TrimMeans(x, s, y);
  }
}
