/** Which containers may be created (docker-authz-plugin/src/lib.rs:528-856): the checks
    of `create_policy` on the JSON of the request's body. */
module PluginCreate {
  import opened JsonValue
  import opened PluginQuery
  import opened Text
  import HostPath

  const MAX_BODY_BYTES: nat := 8 * 1024 * 1024
  const SANDBOX_USER: string := "65534:65534"
  const BIND_TARGETS: seq<string> := ["/scan", "/config"]
  const NETWORKS: seq<string> := ["none", "scanners-internal"]
  const NAMESPACES: seq<string> := ["PidMode", "IpcMode", "UTSMode", "UsernsMode"]
  const PRIVILEGE_OPTIONS: seq<string> :=
    ["no-new-privileges", "no-new-privileges=true", "no-new-privileges:true"]
  const TMPFS_KEYS: seq<string> := ["rw", "noexec", "nosuid", "nodev", "size"]

  // ---- binds -----------------------------------------------------------------------------------

  function Bind(host: string, target: string, options: string): string { host + [':'] + (target + [':'] + options) }

  /** A permitted bind: a host path outside the denied trees, one of the two mount
      points, and `ro` among its options. */
  ghost predicate Permitted(host: string, target: string, options: string) {
    && ':' !in host && ':' !in target && ':' !in options
    && !HostPath.Denied(host) && target in BIND_TARGETS && "ro" in Split(options, ',')
  }

  ghost predicate BindPasses(s: string) {
    exists host, target, options :: Permitted(host, target, options) && s == Bind(host, target, options)
  }

  lemma BindSplits(host: string, target: string, options: string)
    requires ':' !in host && ':' !in target && ':' !in options
    ensures Split(Bind(host, target, options), ':') == [host, target, options]
  {
    SplitWhole(host, ':');
    SplitWhole(target, ':');
    SplitWhole(options, ':');
    SplitConcat(target, options, ':');
    SplitConcat(host, target + [':'] + options, ':');
  }

  lemma PiecesAreBind(s: string)
    requires |Split(s, ':')| == 3
    ensures var p := Split(s, ':');
            s == Bind(p[0], p[1], p[2]) && ':' !in p[0] && ':' !in p[1] && ':' !in p[2]
  {
    var p := Split(s, ':');
    JoinOfSplit(s, ':');
    assert p[1..][1..] == [p[2]] && Join([p[2]], ':') == p[2];
    assert Join(p[1..], ':') == p[1] + [':'] + p[2];
    assert Join(p, ':') == p[0] + [':'] + Join(p[1..], ':');
    assert p[0] in p && p[1] in p && p[2] in p;
  }

  /** A bind that passes has just the three pieces. */
  lemma PassingSplits(s: string)
    ensures BindPasses(s) <==>
              var p := Split(s, ':');
              |p| == 3 && !HostPath.Denied(p[0]) && p[1] in BIND_TARGETS && "ro" in Split(p[2], ',')
  {
    if BindPasses(s) {
      var host, target, options :| Permitted(host, target, options) && s == Bind(host, target, options);
      BindSplits(host, target, options);
    }
    var p := Split(s, ':');
    if |p| == 3 && !HostPath.Denied(p[0]) && p[1] in BIND_TARGETS && "ro" in Split(p[2], ',') {
      PiecesAreBind(s);
      assert Permitted(p[0], p[1], p[2]);
    }
  }

  method CheckBind(s: string) returns (ok: bool)
    ensures ok <==> BindPasses(s)
  {
    PassingSplits(s);
    var parts := Split(s, ':');
    var host := parts[0];
    var container := if |parts| > 1 then parts[1] else "";
    var options := if |parts| > 2 then parts[2] else "";
    if |parts| > 3 || host == "" || container == "" {
      return false;
    }
    var denied := HostPath.HostSourceDenied(host);
    if denied || container !in BIND_TARGETS || "ro" !in Split(options, ',') {
      return false;
    }
    NothingSplits();
    return true;
  }

  lemma NothingSplits()
    ensures Split("", ',') == [""] && "ro" !in Split("", ',')
  {
  }

  /** Every entry of a list is a text that passes. */
  ghost predicate BindsPass(v: Option<Json>) {
    match v
    case None => true
    case Some(Null) => true
    case Some(Arr(items)) => forall b :: b in items ==> b.Str? && BindPasses(b.text)
    case _ => false
  }

  method CheckBinds(v: Option<Json>) returns (ok: bool)
    ensures ok <==> BindsPass(v)
  {
    match v
    case None => return true;
    case Some(Null) => return true;
    case Some(Arr(items)) =>
      for i := 0 to |items|
        invariant forall k :: 0 <= k < i ==> items[k].Str? && BindPasses(items[k].text)
      {
        if !items[i].Str? {
          return false;
        }
        var passes := CheckBind(items[i].text);
        if !passes {
          return false;
        }
      }
      return true;
    case _ => return false;
  }

  // ---- tmpfs -----------------------------------------------------------------------------------

  /** The part of an option before its first `=`. */
  function KeyOf(flag: string): string { Split(flag, '=')[0] }

  function Keys(options: string): seq<string> { Mapped(Split(options, ','), KeyOf) }

  predicate Distinct(keys: seq<string>) { forall i, j :: 0 <= i < j < |keys| ==> keys[i] != keys[j] }

  predicate HoldsAll(text: string) { Holds("noexec", text) && Holds("nosuid", text) && Holds("nodev", text) }

  /** Only the five options, each once, and the three words somewhere in the text. */
  predicate OptionsPass(options: string) {
    && (forall k :: k in Keys(options) ==> k in TMPFS_KEYS)
    && Distinct(Keys(options)) && HoldsAll(options)
  }

  method CheckOptions(options: string) returns (ok: bool)
    ensures ok <==> OptionsPass(options)
  {
    var flags := Split(options, ',');
    ghost var keys := Keys(options);
    var seen: set<string> := {};
    for i := 0 to |flags|
      invariant forall k :: 0 <= k < i ==> keys[k] in TMPFS_KEYS
      invariant Distinct(keys[..i])
      invariant forall k :: k in seen <==> k in keys[..i]
    {
      var key := KeyOf(flags[i]);
      MappedAt(flags, KeyOf, i);
      assert keys[..i + 1] == keys[..i] + [key];
      if key !in TMPFS_KEYS {
        return false;
      }
      if key in seen {
        Repeated(keys, i);
        return false;
      }
      seen := seen + {key};
    }
    assert keys[..|flags|] == keys;
    return Holds("noexec", options) && Holds("nosuid", options) && Holds("nodev", options);
  }

  lemma Repeated(keys: seq<string>, i: nat)
    requires i < |keys| && keys[i] in keys[..i]
    ensures !Distinct(keys)
  {
  }

  predicate UnderWork(path: string) { path == "/work" || "/work/" <= path }

  /** Every mount is under `/work`; options that are a text must pass, and options that
      are not a text are not looked at. */
  predicate TmpfsPasses(v: Option<Json>) {
    match v
    case None => true
    case Some(Obj(fields)) =>
      forall f :: f in fields && Get(fields, f.key) == Some(f.value) ==>
        UnderWork(f.key) && (f.value.Str? ==> OptionsPass(f.value.text))
    case _ => false
  }

  method CheckTmpfs(v: Option<Json>) returns (ok: bool)
    ensures ok <==> TmpfsPasses(v)
  {
    match v
    case None => return true;
    case Some(Obj(fields)) =>
      for i := 0 to |fields|
        invariant forall k :: 0 <= k < i && Get(fields, fields[k].key) == Some(fields[k].value) ==>
                    UnderWork(fields[k].key) && (fields[k].value.Str? ==> OptionsPass(fields[k].value.text))
      {
        if Get(fields, fields[i].key) == Some(fields[i].value) {
          if !UnderWork(fields[i].key) {
            return false;
          }
          if fields[i].value.Str? {
            var passes := CheckOptions(fields[i].value.text);
            if !passes {
              return false;
            }
          }
        }
      }
      return true;
    case _ => return false;
  }

  /** The mount has the three options. */
  predicate Carries(v: Json) {
    v.Str? && "noexec" in Keys(v.text) && "nosuid" in Keys(v.text) && "nodev" in Keys(v.text)
  }

  lemma InsideKey(key: string)
    requires key in TMPFS_KEYS
    ensures Holds("noexec", key) <==> key == "noexec"
    ensures Holds("nosuid", key) <==> key == "nosuid"
    ensures Holds("nodev", key) <==> key == "nodev"
  {
    LongWord("noexec", key);
    LongWord("nosuid", key);
    NodevAlone(key);
  }

  lemma LongWord(word: string, key: string)
    requires |word| >= |key|
    ensures Holds(word, key) <==> key == word
  {
    assert key == word ==> word <= key[0..];
  }

  lemma NodevAlone(key: string)
    requires key in TMPFS_KEYS
    ensures Holds("nodev", key) <==> key == "nodev"
  {
    if |key| <= 5 {
      LongWord("nodev", key);
    } else {
      assert key[2] != 'd' && key[3] != 'd';
      assert forall i :: 0 <= i <= |key| && "nodev" <= key[i..] ==> i + 5 <= |key| && key[i + 2] == 'd' by {
        forall i | 0 <= i <= |key| && "nodev" <= key[i..]
          ensures i + 5 <= |key| && key[i + 2] == 'd'
        {
          assert key[i..][2] == "nodev"[2];
        }
      }
    }
  }

  lemma KeysAreCommaFree(options: string)
    ensures Keys(options) != [] && forall k :: k in Keys(options) ==> ',' !in k
  {
    var flags := Split(options, ',');
    JoinOfSplit(options, ',');
    forall i | 0 <= i < |flags|
      ensures ',' !in Keys(options)[i]
    {
      MappedAt(flags, KeyOf, i);
      JoinOfSplit(flags[i], '=');
      assert flags[i] in flags;
      KeyIsPrefix(flags[i]);
    }
  }

  lemma KeyIsPrefix(flag: string)
    ensures KeyOf(flag) <= flag && ('=' !in flag ==> KeyOf(flag) == flag)
  {
    JoinOfSplit(flag, '=');
    if '=' !in flag {
      SplitWhole(flag, '=');
    }
  }

  /** Three of the five words, in options joined without their values. */
  lemma WordsAreKeys(keys: seq<string>)
    requires keys != [] && forall k :: k in keys ==> k in TMPFS_KEYS
    ensures HoldsAll(Join(keys, ',')) <==> "noexec" in keys && "nosuid" in keys && "nodev" in keys
  {
    HoldsInPiece("noexec", keys, ',');
    HoldsInPiece("nosuid", keys, ',');
    HoldsInPiece("nodev", keys, ',');
    forall k | k in keys
      ensures Holds("noexec", k) <==> k == "noexec"
      ensures Holds("nosuid", k) <==> k == "nosuid"
      ensures Holds("nodev", k) <==> k == "nodev"
    {
      InsideKey(k);
    }
  }

  /** A mount that passes has the three options exactly when they are a text and the
      words are still found once the values are cut off. */
  lemma TmpfsCarriesExactly(fields: seq<Field>, f: Field)
    requires TmpfsPasses(Some(Obj(fields))) && f in fields && Get(fields, f.key) == Some(f.value)
    ensures Carries(f.value) <==> f.value.Str? && HoldsAll(Join(Keys(f.value.text), ','))
  {
    if f.value.Str? {
      KeysAreCommaFree(f.value.text);
      WordsAreKeys(Keys(f.value.text));
    }
  }

  /** Without values nothing can be mistaken. */
  lemma ValuelessCarries(options: string)
    requires OptionsPass(options) && '=' !in options
    ensures Carries(Str(options))
  {
    JoinOfSplit(options, ',');
    var flags := Split(options, ',');
    forall i | 0 <= i < |flags|
      ensures Keys(options)[i] == flags[i]
    {
      MappedAt(flags, KeyOf, i);
      assert flags[i] in flags;
      PieceLetters(options, flags[i], '=');
      KeyIsPrefix(flags[i]);
    }
    assert Keys(options) == flags;
    WordsAreKeys(flags);
  }

  lemma PieceLetters(options: string, flag: string, c: char)
    requires flag in Split(options, ',') && c !in options
    ensures c !in flag
  {
    SplitLetters(options, c);
  }

  lemma {:induction false} SplitLetters(options: string, c: char)
    requires c !in options
    ensures forall p :: p in Split(options, ',') ==> c !in p
  {
    if options != "" {
      SplitLetters(options[1..], c);
    }
  }

  lemma OneOption(key: string, value: string)
    requires '=' !in key && ',' !in key && ',' !in value
    ensures Keys(key + ['='] + value) == [key]
  {
    var option := key + ['='] + value;
    SplitWhole(option, ',');
    SplitWhole(key, '=');
    SplitConcat(key, value, '=');
  }

  lemma HoldsWider(word: string, a: string, b: string)
    ensures Holds(word, a) || Holds(word, b) ==> Holds(word, a + b)
  {
    if Holds(word, a) {
      var i :| 0 <= i <= |a| && word <= a[i..];
      assert word <= (a + b)[i..];
    }
    if Holds(word, b) {
      var i :| 0 <= i <= |b| && word <= b[i..];
      assert (a + b)[|a| + i..] == b[i..];
    }
  }

  lemma HoldsItself(word: string)
    ensures Holds(word, word)
  {
    assert word <= word[0..];
  }

  const WORDS: string := "noexec" + "nosuid" + "nodev"

  lemma WordsHoldAll(key: string)
    ensures HoldsAll(key + ['='] + WORDS)
  {
    forall word | word == "noexec" || word == "nosuid" || word == "nodev"
      ensures Holds(word, key + ['='] + WORDS)
    {
      HoldsItself(word);
      HoldsWider(word, "noexec", "nosuid");
      HoldsWider(word, "noexec" + "nosuid", "nodev");
      HoldsWider(word, key + ['='], WORDS);
    }
  }

  /** The two ways to pass without them: the words inside a value, as in
      `size=noexecnosuidnodev`, or options that are not a text. */
  lemma PassesWithoutOptions()
    ensures OptionsPass("size" + ['='] + WORDS) && !Carries(Str("size" + ['='] + WORDS))
    ensures TmpfsPasses(Some(Obj([Field("/work", Null)]))) && !Carries(Null)
  {
    OneOption("size", WORDS);
    WordsHoldAll("size");
  }

  // ---- the rest ----------------------------------------------------------------------------------

  /** Absent, null or an empty list. */
  predicate Nothing(v: Option<Json>) { v.None? || v.value.Null? || v == Some(Arr([])) }

  predicate TextIn(v: Option<Json>, allowed: seq<string>) { v.Some? && v.value.Str? && v.value.text in allowed }

  predicate IsTrue(v: Option<Json>) { v == Some(Bool(true)) }

  predicate EntrypointPasses(v: Option<Json>) {
    v.None? || v.value.Null? || v == Some(Str("sh")) || v == Some(Arr([Str("sh")]))
  }

  predicate CommandPasses(v: Option<Json>) {
    v.None? || (v.value.Arr? && v.value.items != [] && forall e :: e in v.value.items ==> e.Str?)
  }

  /** A non-empty list of spellings that enable `no-new-privileges`, and nothing else. */
  predicate PrivilegesPass(v: Option<Json>) {
    v.Some? && v.value.Arr? && v.value.items != []
    && forall e :: e in v.value.items ==> e.Str? && e.text in PRIVILEGE_OPTIONS
  }

  method CheckPrivileges(v: Option<Json>) returns (ok: bool)
    ensures ok <==> PrivilegesPass(v)
  {
    if v.None? || !v.value.Arr? || v.value.items == [] {
      return false;
    }
    var items := v.value.items;
    for i := 0 to |items|
      invariant forall k :: 0 <= k < i ==> items[k].Str? && items[k].text in PRIVILEGE_OPTIONS
    {
      if !items[i].Str? || items[i].text !in PRIVILEGE_OPTIONS {
        return false;
      }
    }
    return true;
  }

  const U64: nat := 0x1_0000_0000_0000_0000

  /** `as_u64`, zero for anything else. */
  function CountOf(v: Option<Json>): nat {
    match v
    case Some(Number(digits)) =>
      (match Decimal(digits) case Some(n) => if digits != "" && n < U64 then n else 0 case None => 0)
    case _ => 0
  }

  function NameOf(v: Option<Json>): string {
    match v
    case Some(Str(name)) => name
    case _ => ""
  }

  predicate RestartPasses(v: Option<Json>) {
    match v
    case None => true
    case Some(Null) => true
    case Some(Obj(fields)) =>
      fields == [] || (NameOf(Get(fields, "Name")) in ["", "none", "no"] && CountOf(Get(fields, "MaximumRetryCount")) == 0)
    case _ => false
  }

  /** A field of the host configuration, if that is an object. */
  function HostField(spec: seq<Field>, key: string): Option<Json> {
    match Get(spec, "HostConfig")
    case Some(Obj(fields)) => Get(fields, key)
    case _ => None
  }

  predicate NamespaceFree(v: Option<Json>) { v.None? || v == Some(Str("")) }

  ghost predicate ResourcesPass(spec: seq<Field>) {
    && (HostField(spec, "Privileged").None? || HostField(spec, "Privileged") == Some(Bool(false)))
    && Nothing(HostField(spec, "CapAdd")) && HostField(spec, "CapDrop") == Some(Arr([Str("ALL")]))
    && BindsPass(HostField(spec, "Binds"))
    && Nothing(HostField(spec, "Mounts")) && Nothing(HostField(spec, "VolumesFrom"))
    && TextIn(HostField(spec, "NetworkMode"), NETWORKS)
    && (forall key :: key in NAMESPACES ==> NamespaceFree(HostField(spec, key)))
    && Nothing(HostField(spec, "Devices"))
  }

  ghost predicate ProcessPasses(spec: seq<Field>) {
    && EntrypointPasses(Get(spec, "Entrypoint")) && CommandPasses(Get(spec, "Cmd"))
    && Get(spec, "User") == Some(Str(SANDBOX_USER)) && IsTrue(HostField(spec, "ReadonlyRootfs"))
    && PrivilegesPass(HostField(spec, "SecurityOpt")) && TmpfsPasses(HostField(spec, "Tmpfs"))
    && RestartPasses(HostField(spec, "RestartPolicy"))
  }

  ghost predicate SpecPasses(spec: seq<Field>) {
    && Get(spec, "Image").Some? && Get(spec, "Image").value.Str? && IsApproved(Get(spec, "Image").value.text)
    && ResourcesPass(spec) && ProcessPasses(spec)
  }

  /** The object in the body, if there is one. */
  function SpecOf(parse: string -> Option<Json>, body: Option<string>): Option<seq<Field>> {
    match body
    case None => None
    case Some(text) =>
      if |Encode(text)| > MAX_BODY_BYTES then None
      else match parse(text) case Some(Obj(fields)) => Some(fields) case _ => None
  }

  ghost predicate CreatePasses(parse: string -> Option<Json>, uri: string, body: Option<string>) {
    && SpecOf(parse, body).Some? && SpecPasses(SpecOf(parse, body).value)
    && Param(Split(Query(uri), '&'), "name").Some? && IsScannerName(Param(Split(Query(uri), '&'), "name").value)
  }

  // ---- the same, name by name ------------------------------------------------------------------

  predicate Empty(h: seq<Field>, key: string) {
    Get(h, key).None? || Get(h, key) == Some(Null) || Get(h, key) == Some(Arr([]))
  }

  predicate Unshared(h: seq<Field>, key: string) { Get(h, key).None? || Get(h, key) == Some(Str("")) }

  /** A read-only bind of one of the two mount points. */
  ghost predicate IsStagingMount(v: Json) {
    v.Str? && exists host, target, options ::
                && v.text == host + [':'] + (target + [':'] + options)
                && ':' !in host && ':' !in target && ':' !in options
                && !HostPath.DeniedByName(host) && (target == "/scan" || target == "/config")
                && "ro" in Split(options, ',')
  }

  ghost predicate StagingOnly(h: seq<Field>) {
    || Get(h, "Binds").None? || Get(h, "Binds") == Some(Null)
    || (Get(h, "Binds").value.Arr? && forall b :: b in Get(h, "Binds").value.items ==> IsStagingMount(b))
  }

  predicate IsScratchKey(k: string) { k == "rw" || k == "noexec" || k == "nosuid" || k == "nodev" || k == "size" }

  predicate IsScratch(path: string, options: Json) {
    && (path == "/work" || "/work/" <= path)
    && (options.Str? ==>
          && (forall k :: k in Keys(options.text) ==> IsScratchKey(k)) && Distinct(Keys(options.text))
          && Holds("noexec", options.text) && Holds("nosuid", options.text) && Holds("nodev", options.text))
  }

  predicate ScratchOnly(h: seq<Field>) {
    || Get(h, "Tmpfs").None?
    || (Get(h, "Tmpfs").value.Obj?
        && forall f :: f in Get(h, "Tmpfs").value.fields && Get(Get(h, "Tmpfs").value.fields, f.key) == Some(f.value) ==>
             IsScratch(f.key, f.value))
  }

  predicate IsNoNewPrivileges(v: Json) {
    v == Str("no-new-privileges") || v == Str("no-new-privileges=true") || v == Str("no-new-privileges:true")
  }

  predicate NoRestart(h: seq<Field>) {
    || Get(h, "RestartPolicy").None? || Get(h, "RestartPolicy") == Some(Null)
    || (Get(h, "RestartPolicy").value.Obj?
        && var policy := Get(h, "RestartPolicy").value.fields;
           || policy == []
           || ((Get(policy, "Name").None? || !Get(policy, "Name").value.Str? || Get(policy, "Name") == Some(Str(""))
                || Get(policy, "Name") == Some(Str("none")) || Get(policy, "Name") == Some(Str("no")))
               && CountOf(Get(policy, "MaximumRetryCount")) == 0))
  }

  /** The host configuration of a container that may be created. */
  ghost predicate Confined(h: seq<Field>) {
    && (Get(h, "Privileged").None? || Get(h, "Privileged") == Some(Bool(false)))
    && Empty(h, "CapAdd") && Get(h, "CapDrop") == Some(Arr([Str("ALL")]))
    && StagingOnly(h) && Empty(h, "Mounts") && Empty(h, "VolumesFrom") && Empty(h, "Devices")
    && (Get(h, "NetworkMode") == Some(Str("none")) || Get(h, "NetworkMode") == Some(Str("scanners-internal")))
    && Unshared(h, "PidMode") && Unshared(h, "IpcMode") && Unshared(h, "UTSMode") && Unshared(h, "UsernsMode")
  }

  predicate Hardened(h: seq<Field>) {
    && Get(h, "ReadonlyRootfs") == Some(Bool(true))
    && Get(h, "SecurityOpt").Some? && Get(h, "SecurityOpt").value.Arr? && Get(h, "SecurityOpt").value.items != []
    && (forall o :: o in Get(h, "SecurityOpt").value.items ==> IsNoNewPrivileges(o))
    && ScratchOnly(h) && NoRestart(h)
  }

  /** What the container runs, and as whom. */
  predicate RunsScanner(spec: seq<Field>) {
    && Get(spec, "Image").Some? && Get(spec, "Image").value.Str? && IsApproved(Get(spec, "Image").value.text)
    && Get(spec, "User") == Some(Str("65534:65534"))
    && (Get(spec, "Entrypoint").None? || Get(spec, "Entrypoint") == Some(Null)
        || Get(spec, "Entrypoint") == Some(Str("sh")) || Get(spec, "Entrypoint") == Some(Arr([Str("sh")])))
    && (Get(spec, "Cmd").None?
        || (Get(spec, "Cmd").value.Arr? && Get(spec, "Cmd").value.items != []
            && forall e :: e in Get(spec, "Cmd").value.items ==> e.Str?))
  }

  /** A create request that may pass. */
  ghost predicate MayCreate(parse: string -> Option<Json>, uri: string, body: Option<string>) {
    && body.Some? && |Encode(body.value)| <= 8_388_608
    && parse(body.value).Some? && parse(body.value).value.Obj?
    && var spec := parse(body.value).value.fields;
       && RunsScanner(spec) && Get(spec, "HostConfig").Some? && Get(spec, "HostConfig").value.Obj?
       && Confined(Get(spec, "HostConfig").value.fields) && Hardened(Get(spec, "HostConfig").value.fields)
       && var name := Param(Split(Query(uri), '&'), "name");
          name.Some? && IsScannerName(name.value)
  }

  lemma BindByName(v: Json)
    ensures v.Str? && BindPasses(v.text) <==> IsStagingMount(v)
  {
    if v.Str? && BindPasses(v.text) {
      var host, target, options :| Permitted(host, target, options) && v.text == Bind(host, target, options);
      HostPath.DeniedExactlyWhen(host);
      assert v.text == host + [':'] + (target + [':'] + options);
    }
    if IsStagingMount(v) {
      var host, target, options :|
        && v.text == host + [':'] + (target + [':'] + options)
        && ':' !in host && ':' !in target && ':' !in options
        && !HostPath.DeniedByName(host) && (target == "/scan" || target == "/config")
        && "ro" in Split(options, ',');
      HostPath.DeniedExactlyWhen(host);
      assert Permitted(host, target, options);
    }
  }

  lemma BindsByName(h: seq<Field>)
    ensures BindsPass(Get(h, "Binds")) <==> StagingOnly(h)
  {
    forall b: Json
      ensures b.Str? && BindPasses(b.text) <==> IsStagingMount(b)
    {
      BindByName(b);
    }
  }

  lemma ScratchByName(h: seq<Field>)
    ensures TmpfsPasses(Get(h, "Tmpfs")) <==> ScratchOnly(h)
  {
    forall k: string
      ensures k in TMPFS_KEYS <==> IsScratchKey(k)
    {
    }
    forall path: string, options: Json
      ensures UnderWork(path) && (options.Str? ==> OptionsPass(options.text)) <==> IsScratch(path, options)
    {
    }
  }

  lemma PrivilegesByName(v: Option<Json>)
    ensures PrivilegesPass(v) <==>
              v.Some? && v.value.Arr? && v.value.items != [] && forall o :: o in v.value.items ==> IsNoNewPrivileges(o)
  {
    forall o: Json
      ensures o.Str? && o.text in PRIVILEGE_OPTIONS <==> IsNoNewPrivileges(o)
    {
    }
  }

  lemma RestartByName(h: seq<Field>)
    ensures RestartPasses(Get(h, "RestartPolicy")) <==> NoRestart(h)
  {
  }

  lemma NamespacesByName(h: seq<Field>)
    ensures (forall key :: key in NAMESPACES ==> NamespaceFree(Get(h, key))) <==>
              Unshared(h, "PidMode") && Unshared(h, "IpcMode") && Unshared(h, "UTSMode") && Unshared(h, "UsernsMode")
  {
    var n := NAMESPACES;
    assert |n| == 4 && n[0] == "PidMode" && n[1] == "IpcMode" && n[2] == "UTSMode" && n[3] == "UsernsMode";
    assert n[0] in n && n[1] in n && n[2] in n && n[3] in n;
    forall key
      ensures NamespaceFree(Get(h, key)) <==> Unshared(h, key)
    {
    }
  }

  /** Where there is no object the fields are absent, and no list of dropped
      capabilities can pass. */
  lemma HostIsThere(spec: seq<Field>)
    ensures ResourcesPass(spec) ==> Get(spec, "HostConfig").Some? && Get(spec, "HostConfig").value.Obj?
    ensures Get(spec, "HostConfig").Some? && Get(spec, "HostConfig").value.Obj? ==>
              forall key :: HostField(spec, key) == Get(Get(spec, "HostConfig").value.fields, key)
  {
  }

  lemma ResourcesByName(spec: seq<Field>, h: seq<Field>)
    requires Get(spec, "HostConfig") == Some(Obj(h))
    ensures ResourcesPass(spec) <==> Confined(h)
  {
    HostIsThere(spec);
    BindsByName(h);
    NamespacesByName(h);
  }

  lemma ProcessByName(spec: seq<Field>, h: seq<Field>)
    requires Get(spec, "HostConfig") == Some(Obj(h))
    requires Get(spec, "Image").Some? && Get(spec, "Image").value.Str? && IsApproved(Get(spec, "Image").value.text)
    ensures ProcessPasses(spec) <==> RunsScanner(spec) && Hardened(h)
  {
    HostIsThere(spec);
    PrivilegesByName(Get(h, "SecurityOpt"));
    ScratchByName(h);
    RestartByName(h);
  }

  lemma SpecByName(spec: seq<Field>)
    ensures SpecPasses(spec) <==>
              && RunsScanner(spec) && Get(spec, "HostConfig").Some? && Get(spec, "HostConfig").value.Obj?
              && Confined(Get(spec, "HostConfig").value.fields) && Hardened(Get(spec, "HostConfig").value.fields)
  {
    HostIsThere(spec);
    if Get(spec, "HostConfig").Some? && Get(spec, "HostConfig").value.Obj? {
      var h := Get(spec, "HostConfig").value.fields;
      ResourcesByName(spec, h);
      if Get(spec, "Image").Some? && Get(spec, "Image").value.Str? && IsApproved(Get(spec, "Image").value.text) {
        ProcessByName(spec, h);
      }
    }
  }

  /** What passes, field by field and value by value. */
  lemma CreatePassesExactly(parse: string -> Option<Json>, uri: string, body: Option<string>)
    ensures CreatePasses(parse, uri, body) <==> MayCreate(parse, uri, body)
  {
    if body.Some? && parse(body.value).Some? && parse(body.value).value.Obj? {
      SpecByName(parse(body.value).value.fields);
    }
  }

  /** A written count is read, unless it is too wide for the type. */
  lemma CountIsRead(n: nat)
    ensures CountOf(Some(Number(Show(n)))) == if n < 0x1_0000_0000_0000_0000 then n else 0
  {
    ShownIsRead(n);
  }

  method CheckResources(spec: seq<Field>) returns (ok: bool)
    ensures ok <==> ResourcesPass(spec)
  {
    var privileged := HostField(spec, "Privileged");
    if privileged.Some? && privileged != Some(Bool(false)) {
      return false;
    }
    if !Nothing(HostField(spec, "CapAdd")) {
      return false;
    }
    if HostField(spec, "CapDrop") != Some(Arr([Str("ALL")])) {
      return false;
    }
    var binds := CheckBinds(HostField(spec, "Binds"));
    if !binds || !Nothing(HostField(spec, "Mounts")) || !Nothing(HostField(spec, "VolumesFrom")) {
      return false;
    }
    if !TextIn(HostField(spec, "NetworkMode"), NETWORKS) {
      return false;
    }
    for i := 0 to |NAMESPACES|
      invariant forall k :: 0 <= k < i ==> NamespaceFree(HostField(spec, NAMESPACES[k]))
    {
      if !NamespaceFree(HostField(spec, NAMESPACES[i])) {
        return false;
      }
    }
    return Nothing(HostField(spec, "Devices"));
  }

  method CheckProcess(spec: seq<Field>) returns (ok: bool)
    ensures ok <==> ProcessPasses(spec)
  {
    if !EntrypointPasses(Get(spec, "Entrypoint")) || !CommandPasses(Get(spec, "Cmd")) {
      return false;
    }
    if Get(spec, "User") != Some(Str(SANDBOX_USER)) || !IsTrue(HostField(spec, "ReadonlyRootfs")) {
      return false;
    }
    var privileges := CheckPrivileges(HostField(spec, "SecurityOpt"));
    if !privileges {
      return false;
    }
    var tmpfs := CheckTmpfs(HostField(spec, "Tmpfs"));
    return tmpfs && RestartPasses(HostField(spec, "RestartPolicy"));
  }

  /** `create_policy`. */
  method CreatePolicy(parse: string -> Option<Json>, uri: string, body: Option<string>) returns (allowed: bool)
    ensures allowed <==> CreatePasses(parse, uri, body)
    ensures allowed <==> MayCreate(parse, uri, body)
  {
    CreatePassesExactly(parse, uri, body);
    var spec := SpecOf(parse, body);
    if spec.None? {
      return false;
    }
    var name := Param(Split(Query(uri), '&'), "name");
    if name.None? || !(PREFIX <= name.value) {
      return false;
    }
    var scanner := CheckUuid(name.value[|PREFIX|..]);
    if !scanner {
      return false;
    }
    var image := Get(spec.value, "Image");
    if image.None? || !image.value.Str? || !IsApproved(image.value.text) {
      return false;
    }
    var resources := CheckResources(spec.value);
    if !resources {
      return false;
    }
    allowed := CheckProcess(spec.value);
  }

  /** A create that passes binds nothing but permitted paths, reads no other volume, and
      mounts scratch space under `/work` only. */
  lemma PassingCreateIsConfined(parse: string -> Option<Json>, uri: string, body: Option<string>)
    requires CreatePasses(parse, uri, body)
    ensures var spec := SpecOf(parse, body).value;
            && (forall items: seq<Json>, b: Json :: HostField(spec, "Binds") == Some(Arr(items)) && b in items ==>
                  b.Str? && exists host, target, options ::
                    Permitted(host, target, options) && b.text == Bind(host, target, options))
            && (forall fields: seq<Field>, f: Field ::
                  (HostField(spec, "Tmpfs") == Some(Obj(fields)) && f in fields && Get(fields, f.key) == Some(f.value)) ==>
                  UnderWork(f.key) && (Carries(f.value) <==> f.value.Str? && HoldsAll(Join(Keys(f.value.text), ','))))
            && Nothing(HostField(spec, "Mounts")) && Nothing(HostField(spec, "VolumesFrom"))
  {
    var spec := SpecOf(parse, body).value;
    forall items: seq<Json>, b: Json | HostField(spec, "Binds") == Some(Arr(items)) && b in items
      ensures b.Str? && BindPasses(b.text)
    {
    }
    forall fields: seq<Field>, f: Field | HostField(spec, "Tmpfs") == Some(Obj(fields)) && f in fields && Get(fields, f.key) == Some(f.value)
      ensures UnderWork(f.key) && (Carries(f.value) <==> f.value.Str? && HoldsAll(Join(Keys(f.value.text), ',')))
    {
      TmpfsCarriesExactly(fields, f);
    }
  }
}
