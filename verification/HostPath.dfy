/** Which host paths may back a bind mount
    (docker-authz-plugin/src/lib.rs:51-62 and 303-339). */
module HostPath {
  import opened Text

  const SYSTEM_PREFIXES: seq<string> := ["/proc/", "/sys/", "/dev/", "/etc/", "/root/"]

  const SERVICE_PREFIXES: seq<string> := ["/var/run/", "/run/", "/var/lib/docker/", "/boot/", "/home/"]

  /** The same trees as lists of components. */
  const SYSTEM_TREES: seq<seq<string>> := [["proc"], ["sys"], ["dev"], ["etc"], ["root"]]

  const SERVICE_TREES: seq<seq<string>> := [["var", "run"], ["run"], ["var", "lib", "docker"], ["boot"], ["home"]]

  predicate IsSocket(cleaned: string) { cleaned == "/var/run/docker.sock" || cleaned == "/run/docker.sock" }

  predicate Ordinary(c: string) { c != "" && c != "." && c != ".." && '/' !in c }

  /** One component after the others: `..` at the root stays at the root. */
  function Enter(at: seq<string>, c: string): seq<string> {
    if c == "" || c == "." then at
    else if c == ".." then (if at == [] then [] else at[..|at| - 1])
    else at + [c]
  }

  function Walk(at: seq<string>, components: seq<string>): seq<string>
    decreases |components|
  {
    if components == [] then at else Walk(Enter(at, components[0]), components[1..])
  }

  /** Where a path leads, lexically. */
  function Resolved(path: string): seq<string> { Walk([], Split(path, '/')) }

  function Printed(parts: seq<string>): string { "/" + (if parts == [] then "" else Join(parts, '/')) }

  /** `canonical_host_path`. */
  method CanonicalHostPath(path: string) returns (cleaned: string)
    ensures cleaned == Printed(Resolved(path))
  {
    var components := Split(path, '/');
    var parts: seq<string> := [];
    for i := 0 to |components|
      invariant Walk(parts, components[i..]) == Resolved(path)
    {
      var component := components[i];
      assert components[i..][1..] == components[i + 1..];
      if component == "" || component == "." {
      } else if component == ".." {
        if parts != [] {
          parts := parts[..|parts| - 1];
        }
      } else {
        parts := parts + [component];
      }
    }
    cleaned := "/" + (if parts == [] then "" else Join(parts, '/'));
  }

  // ---- the walk --------------------------------------------------------------------------

  lemma {:induction false} WalkConcat(at: seq<string>, a: seq<string>, b: seq<string>)
    ensures Walk(at, a + b) == Walk(Walk(at, a), b)
    decreases |a|
  {
    if a == [] {
      assert a + b == b;
    } else {
      assert (a + b)[1..] == a[1..] + b;
      WalkConcat(Enter(at, a[0]), a[1..], b);
    }
  }

  lemma {:induction false} WalkIsOrdinary(at: seq<string>, components: seq<string>)
    requires forall c :: c in at ==> Ordinary(c)
    requires forall c :: c in components ==> '/' !in c
    ensures forall c :: c in Walk(at, components) ==> Ordinary(c)
    decreases |components|
  {
    if components != [] {
      WalkIsOrdinary(Enter(at, components[0]), components[1..]);
    }
  }

  lemma {:induction false} WalkOrdinary(at: seq<string>, parts: seq<string>)
    requires forall c :: c in parts ==> Ordinary(c)
    ensures Walk(at, parts) == at + parts
    decreases |parts|
  {
    if parts == [] {
      assert at + parts == at;
    } else {
      assert parts[0] in parts;
      assert Enter(at, parts[0]) == at + [parts[0]];
      WalkOrdinary(at + [parts[0]], parts[1..]);
      assert at + parts == at + [parts[0]] + parts[1..];
    }
  }

  lemma ResolvedIsOrdinary(path: string)
    ensures forall c :: c in Resolved(path) ==> Ordinary(c)
  {
    JoinOfSplit(path, '/');
    WalkIsOrdinary([], Split(path, '/'));
  }

  /** A printed path leads where it was printed from. */
  lemma ResolvedOfPrinted(parts: seq<string>)
    requires forall c :: c in parts ==> Ordinary(c)
    ensures Resolved(Printed(parts)) == parts
  {
    var tail := if parts == [] then "" else Join(parts, '/');
    assert Printed(parts) == "" + ['/'] + tail;
    SplitConcat("", tail, '/');
    assert Split("", '/') == [""];
    if parts == [] {
      assert Split(Printed(parts), '/') == ["", ""];
      assert ["", ""][1..] == [""];
    } else {
      SplitOfJoin(parts, '/');
      assert Split(Printed(parts), '/') == [""] + parts;
      assert ([""] + parts)[1..] == parts;
      WalkOrdinary([], parts);
    }
  }

  /** Canonicalization changes a canonical path no more. */
  lemma CanonicalIsIdempotent(path: string)
    ensures Resolved(Printed(Resolved(path))) == Resolved(path)
  {
    ResolvedIsOrdinary(path);
    ResolvedOfPrinted(Resolved(path));
  }

  lemma {:induction false} SplitTwice(a: string, mid: string, b: string)
    ensures Split(a + "/" + mid + "/" + b, '/') == Split(a, '/') + (Split(mid, '/') + Split(b, '/'))
  {
    SplitConcat(mid, b, '/');
    SplitConcat(a, mid + "/" + b, '/');
    assert a + "/" + mid + "/" + b == a + ['/'] + (mid + "/" + b);
  }

  /** Anything between two slashes that leads nowhere may be inserted: nothing, `.`,
      or a name followed by `..`. */
  lemma DetourChangesNothing(a: string, detour: string, b: string)
    requires forall at: seq<string> :: Walk(at, Split(detour, '/')) == at
    ensures Resolved(a + "/" + detour + "/" + b) == Resolved(a + "/" + b)
  {
    SplitTwice(a, detour, b);
    SplitConcat(a, b, '/');
    assert a + "/" + b == a + ['/'] + b;
    var there := Walk([], Split(a, '/'));
    WalkConcat([], Split(a, '/'), Split(detour, '/') + Split(b, '/'));
    WalkConcat(there, Split(detour, '/'), Split(b, '/'));
    WalkConcat([], Split(a, '/'), Split(b, '/'));
  }

  lemma Detours(name: string, at: seq<string>)
    requires Ordinary(name)
    ensures Walk(at, Split("", '/')) == at && Walk(at, Split(".", '/')) == at
    ensures Walk(at, Split(name + "/..", '/')) == at
  {
    SplitWhole(".", '/');
    SplitWhole("..", '/');
    SplitWhole(name, '/');
    SplitConcat(name, "..", '/');
    assert name + "/.." == name + ['/'] + "..";
    assert Split(name + "/..", '/') == [name, ".."];
    assert Walk(at, [name, ".."]) == Walk(at + [name], [".."]);
    assert (at + [name])[..|at + [name]| - 1] == at;
    assert Walk(at, ["."]) == at && Walk(at, [""]) == at;
  }

  lemma InsertionsChangeNothing(a: string, name: string, b: string)
    requires Ordinary(name)
    ensures Resolved(a + "/" + "" + "/" + b) == Resolved(a + "/" + b)
    ensures Resolved(a + "/" + "." + "/" + b) == Resolved(a + "/" + b)
    ensures Resolved(a + "/" + (name + "/..") + "/" + b) == Resolved(a + "/" + b)
  {
    forall at: seq<string>
      ensures Walk(at, Split("", '/')) == at && Walk(at, Split(".", '/')) == at
      ensures Walk(at, Split(name + "/..", '/')) == at
    {
      Detours(name, at);
    }
    DetourChangesNothing(a, "", b);
    DetourChangesNothing(a, ".", b);
    DetourChangesNothing(a, name + "/..", b);
  }

  // ---- what is denied ---------------------------------------------------------------------

  function TrimSlashes(s: string): string {
    if s != "" && s[|s| - 1] == '/' then TrimSlashes(s[..|s| - 1]) else s
  }

  /** The path is one of the trees or lies in one. */
  ghost predicate In(trees: seq<seq<string>>, parts: seq<string>) {
    exists i :: 0 <= i < |trees| && trees[i] <= parts
  }

  /** A source is refused exactly when it is relative, leads to the root, or leads
      into a denied tree, however it is spelled. */
  ghost predicate Denied(path: string) {
    path == "" || path[0] != '/' || Resolved(path) == [] || In(SYSTEM_TREES + SERVICE_TREES, Resolved(path))
  }

  /** The same, name by name. */
  predicate DeniedByName(path: string) {
    || path == "" || path[0] != '/'
    || var at := Resolved(path);
       || at == []
       || at[0] == "proc" || at[0] == "sys" || at[0] == "dev" || at[0] == "etc" || at[0] == "root"
       || at[0] == "run" || at[0] == "boot" || at[0] == "home"
       || (|at| >= 2 && at[0] == "var" && at[1] == "run")
       || (|at| >= 3 && at[0] == "var" && at[1] == "lib" && at[2] == "docker")
  }

  lemma SystemNames(at: seq<string>)
    ensures In(SYSTEM_TREES, at) <==>
              at != [] && (at[0] == "proc" || at[0] == "sys" || at[0] == "dev" || at[0] == "etc" || at[0] == "root")
  {
    var t := SYSTEM_TREES;
    assert |t| == 5 && t[0] == ["proc"] && t[1] == ["sys"] && t[2] == ["dev"] && t[3] == ["etc"] && t[4] == ["root"];
    if at != [] && (at[0] == "proc" || at[0] == "sys" || at[0] == "dev" || at[0] == "etc" || at[0] == "root") {
      assert [at[0]] <= at;
    }
  }

  lemma ServiceNames(at: seq<string>)
    ensures In(SERVICE_TREES, at) <==>
              || (at != [] && (at[0] == "run" || at[0] == "boot" || at[0] == "home"))
              || (|at| >= 2 && at[0] == "var" && at[1] == "run")
              || (|at| >= 3 && at[0] == "var" && at[1] == "lib" && at[2] == "docker")
  {
    var t := SERVICE_TREES;
    assert |t| == 5 && t[0] == ["var", "run"] && t[1] == ["run"] && t[2] == ["var", "lib", "docker"];
    assert t[3] == ["boot"] && t[4] == ["home"];
  }

  lemma InConcat(t: seq<seq<string>>, u: seq<seq<string>>, at: seq<string>)
    ensures In(t + u, at) <==> In(t, at) || In(u, at)
  {
    forall i | 0 <= i < |u| && u[i] <= at
      ensures In(t + u, at)
    {
      InTree(t, u, i, at);
    }
    forall i | 0 <= i < |t| && t[i] <= at
      ensures In(t + u, at)
    {
      assert (t + u)[i] == t[i];
    }
  }

  lemma DeniedExactlyWhen(path: string)
    ensures Denied(path) <==> DeniedByName(path)
  {
    InConcat(SYSTEM_TREES, SERVICE_TREES, Resolved(path));
    SystemNames(Resolved(path));
    ServiceNames(Resolved(path));
  }

  lemma {:induction false} JoinConcat(a: seq<string>, b: seq<string>)
    requires a != [] && b != []
    ensures Join(a + b, '/') == Join(a, '/') + "/" + Join(b, '/')
  {
    if |a| == 1 {
      assert (a + b)[1..] == b;
    } else {
      assert (a + b)[1..] == a[1..] + b;
      JoinConcat(a[1..], b);
    }
  }

  predicate Slashless(parts: seq<string>) { forall c :: c in parts ==> '/' !in c }

  lemma TextPrefixIsTree(parts: seq<string>, tree: seq<string>)
    requires parts != [] && tree != [] && Slashless(parts) && Slashless(tree)
    requires Printed(tree) + "/" <= Printed(parts)
    ensures tree <= parts
  {
    var rest := Printed(parts)[|Printed(tree)| + 1..];
    assert Printed(parts) == Printed(tree) + "/" + rest;
    assert Join(parts, '/') == Printed(parts)[1..];
    assert Printed(parts)[1..] == Join(tree, '/') + ['/'] + rest;
    SplitOfJoin(parts, '/');
    SplitOfJoin(tree, '/');
    SplitConcat(Join(tree, '/'), rest, '/');
  }

  lemma TreeIsTextPrefix(tree: seq<string>, rest: seq<string>)
    requires tree != []
    ensures rest == [] ==> Printed(tree + rest) == Printed(tree)
    ensures rest != [] ==> Printed(tree) + "/" <= Printed(tree + rest)
  {
    if rest == [] {
      assert tree + rest == tree;
    } else {
      JoinConcat(tree, rest);
      assert Printed(tree + rest) == Printed(tree) + "/" + Join(rest, '/');
    }
  }

  lemma SamePrintSameParts(parts: seq<string>, tree: seq<string>)
    requires parts != [] && tree != [] && Slashless(parts) && Slashless(tree) && Printed(parts) == Printed(tree)
    ensures parts == tree
  {
    assert Printed(parts)[1..] == Join(parts, '/') && Printed(tree)[1..] == Join(tree, '/');
    SplitOfJoin(parts, '/');
    SplitOfJoin(tree, '/');
  }

  /** On component boundaries: the text test is the list-prefix test. */
  lemma PrefixIsTree(parts: seq<string>, tree: seq<string>)
    requires parts != [] && tree != [] && Slashless(parts) && Slashless(tree)
    ensures Printed(parts) == Printed(tree) || Printed(tree) + "/" <= Printed(parts) <==> tree <= parts
  {
    if tree <= parts {
      TreeIsTextPrefix(tree, parts[|tree|..]);
      assert tree + parts[|tree|..] == parts;
    } else if Printed(parts) == Printed(tree) {
      SamePrintSameParts(parts, tree);
    } else if Printed(tree) + "/" <= Printed(parts) {
      TextPrefixIsTree(parts, tree);
    }
  }

  /** The prefix spells the tree, with a slash at its end. */
  ghost predicate Spells(prefix: string, tree: seq<string>) {
    tree != [] && (forall c :: c in tree ==> Ordinary(c)) && prefix == Printed(tree) + "/"
  }

  lemma TrimmedPrefix(prefix: string, tree: seq<string>)
    requires Spells(prefix, tree)
    ensures TrimSlashes(prefix) == Printed(tree)
  {
    var p := Printed(tree);
    LastOfJoin(tree);
    assert p[|p| - 1] == Join(tree, '/')[|Join(tree, '/')| - 1];
    assert prefix[..|prefix| - 1] == p;
    assert TrimSlashes(p) == p;
  }

  lemma OneName(a: string)
    requires Ordinary(a)
    ensures Spells("/" + a + "/", [a])
  {
  }

  lemma TwoNames(a: string, b: string)
    requires Ordinary(a) && Ordinary(b)
    ensures Spells("/" + a + "/" + b + "/", [a, b])
  {
    assert [a, b][1..] == [b];
    assert Join([a, b], '/') == a + ['/'] + b;
    assert "/" + (a + ['/'] + b) + "/" == "/" + a + "/" + b + "/";
  }

  lemma ThreeNames(a: string, b: string, c: string)
    requires Ordinary(a) && Ordinary(b) && Ordinary(c)
    ensures Spells("/" + a + "/" + b + "/" + c + "/", [a, b, c])
  {
    assert [a, b, c][1..] == [b, c] && [b, c][1..] == [c];
    assert Join([b, c], '/') == b + ['/'] + c;
    assert Join([a, b, c], '/') == a + ['/'] + (b + ['/'] + c);
    assert "/" + (a + ['/'] + (b + ['/'] + c)) + "/" == "/" + a + "/" + b + "/" + c + "/";
  }

  ghost predicate AllSpell(prefixes: seq<string>, trees: seq<seq<string>>) {
    |prefixes| == |trees| && forall i :: 0 <= i < |trees| ==> Spells(prefixes[i], trees[i])
  }

  lemma SystemTreesSpell()
    ensures AllSpell(SYSTEM_PREFIXES, SYSTEM_TREES)
  {
    OneName("proc");
    OneName("sys");
    OneName("dev");
    OneName("etc");
    OneName("root");
    assert "/proc/" == "/" + "proc" + "/" && "/sys/" == "/" + "sys" + "/" && "/dev/" == "/" + "dev" + "/";
    assert "/etc/" == "/" + "etc" + "/" && "/root/" == "/" + "root" + "/";
  }

  lemma VarTreesSpell()
    ensures Spells("/var/run/", ["var", "run"]) && Spells("/run/", ["run"])
  {
    TwoNames("var", "run");
    OneName("run");
    assert "/var/run/" == "/" + "var" + "/" + "run" + "/" && "/run/" == "/" + "run" + "/";
  }

  lemma DockerTreeSpells()
    ensures Spells("/var/lib/docker/", ["var", "lib", "docker"])
  {
    ThreeNames("var", "lib", "docker");
    assert "/var/lib/docker/" == "/" + "var" + "/" + "lib" + "/" + "docker" + "/";
  }

  lemma HomeTreesSpell()
    ensures Spells("/boot/", ["boot"]) && Spells("/home/", ["home"])
  {
    OneName("boot");
    OneName("home");
    assert "/boot/" == "/" + "boot" + "/" && "/home/" == "/" + "home" + "/";
  }

  lemma Assembled(p: seq<string>, t: seq<seq<string>>)
    requires |p| == |t| == 5
    requires Spells(p[0], t[0]) && Spells(p[1], t[1]) && Spells(p[2], t[2]) && Spells(p[3], t[3]) && Spells(p[4], t[4])
    ensures AllSpell(p, t)
  {
  }

  lemma ServiceTreesSpell()
    ensures AllSpell(SERVICE_PREFIXES, SERVICE_TREES)
  {
    VarTreesSpell();
    DockerTreeSpells();
    HomeTreesSpell();
    Assembled(SERVICE_PREFIXES, SERVICE_TREES);
  }

  lemma AllSpellConcat(p: seq<string>, t: seq<seq<string>>, q: seq<string>, u: seq<seq<string>>)
    requires AllSpell(p, t) && AllSpell(q, u)
    ensures AllSpell(p + q, t + u)
  {
  }

  lemma {:induction false} LastOfJoin(tree: seq<string>)
    requires tree != [] && forall c :: c in tree ==> Ordinary(c)
    ensures Join(tree, '/') != "" && Join(tree, '/')[|Join(tree, '/')| - 1] != '/'
  {
    if |tree| > 1 {
      LastOfJoin(tree[1..]);
    } else {
      assert tree[0] in tree;
    }
  }

  /** `host_source_denied`. */
  method HostSourceDenied(path: string) returns (denied: bool)
    ensures denied <==> Denied(path)
    ensures denied <==> DeniedByName(path)
  {
    DeniedExactlyWhen(path);
    if path == "" || path[0] != '/' {
      return true;
    }
    var cleaned := CanonicalHostPath(path);
    ResolvedIsOrdinary(path);
    SocketsAreInTrees(Resolved(path));
    if cleaned == "/" || IsSocket(cleaned) {
      return true;
    }
    SystemTreesSpell();
    ServiceTreesSpell();
    AllSpellConcat(SYSTEM_PREFIXES, SYSTEM_TREES, SERVICE_PREFIXES, SERVICE_TREES);
    denied := UnderAny(cleaned, SYSTEM_PREFIXES + SERVICE_PREFIXES, Resolved(path), SYSTEM_TREES + SERVICE_TREES);
  }

  /** Whether a canonical path is one of the prefixes, less its slash, or below it. */
  method UnderAny(cleaned: string, prefixes: seq<string>, ghost parts: seq<string>, ghost trees: seq<seq<string>>)
    returns (under: bool)
    requires cleaned == Printed(parts) && parts != [] && AllSpell(prefixes, trees)
    requires forall c :: c in parts ==> Ordinary(c)
    ensures under <==> In(trees, parts)
  {
    for i := 0 to |prefixes|
      invariant forall k :: 0 <= k < i ==> !(trees[k] <= parts)
    {
      TrimmedPrefix(prefixes[i], trees[i]);
      PrefixIsTree(parts, trees[i]);
      if cleaned == TrimSlashes(prefixes[i]) || prefixes[i] <= cleaned {
        return true;
      }
    }
    return false;
  }

  /** The sockets lie in denied trees, so the exact list adds the root only. */
  lemma SocketsAreInTrees(parts: seq<string>)
    requires forall c :: c in parts ==> Ordinary(c)
    ensures Printed(parts) == "/" <==> parts == []
    ensures IsSocket(Printed(parts)) ==> In(SYSTEM_TREES + SERVICE_TREES, parts)
  {
    RootPrints(parts);
    if Printed(parts) == "/var/run/docker.sock" {
      ServiceSocket(parts, SERVICE_TREES[0], "docker.sock");
      InTree(SYSTEM_TREES, SERVICE_TREES, 0, parts);
    } else if Printed(parts) == "/run/docker.sock" {
      ServiceSocket(parts, SERVICE_TREES[1], "docker.sock");
      InTree(SYSTEM_TREES, SERVICE_TREES, 1, parts);
    }
  }

  lemma RootPrints(parts: seq<string>)
    requires forall c :: c in parts ==> Ordinary(c)
    ensures Printed(parts) == "/" <==> parts == []
  {
    ResolvedOfPrinted(parts);
    ResolvedOfPrinted([]);
    assert Printed([]) == "/";
  }

  lemma InTree(t: seq<seq<string>>, u: seq<seq<string>>, i: nat, parts: seq<string>)
    requires i < |u| && u[i] <= parts
    ensures In(t + u, parts)
  {
    assert (t + u)[|t| + i] == u[i];
  }

  lemma ServiceSocket(parts: seq<string>, tree: seq<string>, name: string)
    requires tree == ["var", "run"] || tree == ["run"]
    requires forall c :: c in parts ==> Ordinary(c)
    requires Ordinary(name) && Printed(parts) == (if |tree| == 2 then "/var/run/" else "/run/") + name
    ensures tree <= parts
  {
    VarTreesSpell();
    assert parts != [];
    assert Printed(tree) + "/" <= Printed(parts);
    PrefixIsTree(parts, tree);
  }
}
