/** The control plane's key space.  The other modules use the structured `Key`;
    this one ties it to the strings the store really holds. */
module Keys {
  import opened Common

  /** What hangs below `sandbox/<id>/`. `Owner` is the key spelt `/node`. */
  datatype Field = Meta | State | Owner | Project | Size | Pin | Retain

  datatype Key =
    | Leader
    | GwSecret
    | Nonce(nonce: string)
    | Kek(project: string)
    | Quota(project: string)
    | NodeAlive(node: string)
    | Sandbox(id: string, field: Field)

  function Suffix(f: Field): string {
    match f
    case Meta => "/meta"
    case State => "/state"
    case Owner => "/node"
    case Project => "/project"
    case Size => "/size"
    case Pin => "/pin"
    case Retain => "/retain"
  }

  function Render(k: Key): string {
    match k
    case Leader => "cluster/leader"
    case GwSecret => "cluster/gw_secret"
    case Nonce(n) => "gw/nonce/" + n
    case Kek(p) => "kek/" + p
    case Quota(p) => "quota/" + p
    case NodeAlive(n) => "node/" + n
    case Sandbox(id, f) => "sandbox/" + id + Suffix(f)
  }

  function StripPrefix(s: string, p: string): (r: Option<string>) {
    if p <= s then Some(s[|p|..]) else None
  }

  predicate EndsWith(s: string, t: string) {
    |t| <= |s| && s[|s| - |t|..] == t
  }

  function StripSuffix(s: string, t: string): (r: Option<string>) {
    if EndsWith(s, t) then Some(s[..|s| - |t|]) else None
  }

  /** A sandbox key of the given kind yields its id: the reading every scan of the
      sandbox keys starts with. */
  function SandboxOf(key: string, f: Field): (r: Option<string>) {
    match StripPrefix(key, "sandbox/")
    case None => None
    case Some(rest) => StripSuffix(rest, Suffix(f))
  }

  function UpTo(s: string, c: char): (r: string)
    ensures c !in r
    ensures |r| <= |s| && r == s[..|r|]
    ensures |r| < |s| ==> s[|r|] == c
  {
    if s == "" || s[0] == c then "" else [s[0]] + UpTo(s[1..], c)
  }

  /** `sandbox_id_of_key`: the segment between `sandbox/` and the next slash. */
  function SandboxIdOfKey(key: string): (r: Option<string>) {
    match StripPrefix(key, "sandbox/")
    case None => None
    case Some(rest) => var id := UpTo(rest, '/'); if id == "" then None else Some(id)
  }

  lemma SuffixesAreApart(id: string, f: Field, g: Field)
    requires EndsWith(id + Suffix(f), Suffix(g))
    ensures f == g
  {
    var s := id + Suffix(f);
    assert s[|s| - 1] == Suffix(f)[|Suffix(f)| - 1] == Suffix(g)[|Suffix(g)| - 1];
    assert s[|s| - 2] == Suffix(f)[|Suffix(f)| - 2] == Suffix(g)[|Suffix(g)| - 2];
    assert s[|s| - 3] == Suffix(f)[|Suffix(f)| - 3] == Suffix(g)[|Suffix(g)| - 3];
    assert s[|s| - 4] == Suffix(f)[|Suffix(f)| - 4] == Suffix(g)[|Suffix(g)| - 4];
  }

  lemma OthersAreNotSandboxes(k: Key)
    requires !k.Sandbox?
    ensures StripPrefix(Render(k), "sandbox/") == None
  {
    assert Render(k)[0] != 's';
  }

  lemma SandboxRest(id: string, f: Field)
    ensures StripPrefix(Render(Sandbox(id, f)), "sandbox/") == Some(id + Suffix(f))
  {
    var rest := id + Suffix(f);
    assert Render(Sandbox(id, f)) == "sandbox/" + rest;
    assert ("sandbox/" + rest)[8..] == rest;
  }

  /** A scan for one kind of sandbox key picks out exactly the keys of that kind,
      and recovers the id — for every id, slashes included. */
  lemma ScanFindsExactly(k: Key, f: Field)
    ensures SandboxOf(Render(k), f) == (if k.Sandbox? && k.field == f then Some(k.id) else None)
  {
    if k.Sandbox? {
      SandboxRest(k.id, k.field);
      var rest := k.id + Suffix(k.field);
      if EndsWith(rest, Suffix(f)) {
        SuffixesAreApart(k.id, k.field, f);
        assert rest[..|rest| - |Suffix(f)|] == k.id;
      }
    } else {
      OthersAreNotSandboxes(k);
    }
  }

  method Scan(k: Key, f: Field) returns (sid: Option<string>)
    ensures sid == if k.Sandbox? && k.field == f then Some(k.id) else None
  {
    ScanFindsExactly(k, f);
    sid := SandboxOf(Render(k), f);
  }

  /** The strings the store holds. */
  lemma KeyTexts(x: string)
    ensures Render(Leader) == "cluster/leader" && Render(GwSecret) == "cluster/gw_secret" && Render(Nonce(x)) == "gw/nonce/" + x
    ensures Render(Kek(x)) == "kek/" + x && Render(Quota(x)) == "quota/" + x && Render(NodeAlive(x)) == "node/" + x
    ensures Render(Sandbox(x, Meta)) == "sandbox/" + x + "/meta" && Render(Sandbox(x, State)) == "sandbox/" + x + "/state"
    ensures Render(Sandbox(x, Owner)) == "sandbox/" + x + "/node" && Render(Sandbox(x, Project)) == "sandbox/" + x + "/project"
    ensures Render(Sandbox(x, Size)) == "sandbox/" + x + "/size" && Render(Sandbox(x, Pin)) == "sandbox/" + x + "/pin"
    ensures Render(Sandbox(x, Retain)) == "sandbox/" + x + "/retain"
  {
  }

  /** No two keys of the model share a string. */
  lemma RenderIsInjective(a: Key, b: Key)
    requires Render(a) == Render(b)
    ensures a == b
  {
    if a.Sandbox? || b.Sandbox? {
      var f := if a.Sandbox? then a.field else b.field;
      ScanFindsExactly(a, f);
      ScanFindsExactly(b, f);
    } else {
      assert Render(a)[0] == Render(b)[0] && Render(a)[1] == Render(b)[1];
      match a
      case Nonce(n) => assert Render(a)[9..] == n; assert b.Nonce? && Render(b)[9..] == b.nonce;
      case Kek(p) => assert Render(a)[4..] == p; assert b.Kek? && Render(b)[4..] == b.project;
      case Quota(p) => assert Render(a)[6..] == p; assert b.Quota? && Render(b)[6..] == b.project;
      case NodeAlive(n) => assert Render(a)[5..] == n; assert b.NodeAlive? && Render(b)[5..] == b.node;
      case Leader => assert Render(a)[8] == Render(b)[8];
      case GwSecret => assert Render(a)[8] == Render(b)[8];
    }
  }

  lemma {:induction false} UpToStopsAt(s: string, t: string, c: char)
    requires c !in s && t != "" && t[0] == c
    ensures UpTo(s + t, c) == s
  {
    if s == "" {
      assert s + t == t;
    } else {
      assert (s + t)[1..] == s[1..] + t;
      UpToStopsAt(s[1..], t, c);
    }
  }

  /** What the reaper reads off a swept key: the sandbox's own id, and only for
      sandbox keys.  Ids are hex, so without slashes and never empty. */
  lemma SweptKeyNamesItsSandbox(k: Key)
    requires k.Sandbox? ==> k.id != "" && '/' !in k.id
    ensures SandboxIdOfKey(Render(k)) == (if k.Sandbox? then Some(k.id) else None)
  {
    if k.Sandbox? {
      SandboxRest(k.id, k.field);
      UpToStopsAt(k.id, Suffix(k.field), '/');
    } else {
      OthersAreNotSandboxes(k);
    }
  }
}
