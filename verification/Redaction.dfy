/** What the request log may show (backend/src/middleware/http_logger.rs:16-128). */
module Redaction {
  import opened JsonValue
  import opened Text

  // ---- JSON bodies ------------------------------------------------------------------------

  const REDACTED: string := "[REDACTED]"
  const REDACTED_TOKEN: string := "[REDACTED_JWT_TOKEN]"

  /** Which keys hide their values. */
  type Hidden = string -> bool

  const SENSITIVE_WORDS: seq<string> := [
    "password", "secret", "token", "auth", "cookie", "key", "credential", "p256dh", "private", "email", "evidence",
    "snippet"]

  /** The program's rule, for any lower-casing of keys. */
  predicate SensitiveKey(lower: string -> string, key: string) {
    lower(key) == "code" || exists w | w in SENSITIVE_WORDS :: Holds(w, lower(key))
  }

  predicate IsToken(s: string) { "Bearer " <= s || "eyJ" <= s }

  function Redact(hidden: Hidden, v: Json): Json {
    match v
    case Obj(fields) => Obj(RedactFields(hidden, fields))
    case Arr(items) => Arr(RedactItems(hidden, items))
    case Str(s) => if IsToken(s) then Str(REDACTED_TOKEN) else v
    case _ => v
  }

  function RedactItems(hidden: Hidden, items: seq<Json>): (r: seq<Json>)
    ensures |r| == |items|
  {
    if items == [] then [] else [Redact(hidden, items[0])] + RedactItems(hidden, items[1..])
  }

  function RedactField(hidden: Hidden, f: Field): Field {
    f.(value := if hidden(f.key) then Str(REDACTED) else Redact(hidden, f.value))
  }

  function RedactFields(hidden: Hidden, fields: seq<Field>): (r: seq<Field>)
    ensures |r| == |fields|
  {
    if fields == [] then [] else [RedactField(hidden, fields[0])] + RedactFields(hidden, fields[1..])
  }

  /** The program's rule as a choice of keys. */
  function Rule(lower: string -> string): Hidden { key => SensitiveKey(lower, key) }

  /** Whether a key hides its value, word by word. */
  method IsSensitive(lower: string -> string, key: string) returns (b: bool)
    ensures b <==> SensitiveKey(lower, key)
  {
    var k := lower(key);
    for i := 0 to |SENSITIVE_WORDS|
      invariant forall j :: 0 <= j < i ==> !Holds(SENSITIVE_WORDS[j], k)
    {
      if Holds(SENSITIVE_WORDS[i], k) {
        return true;
      }
    }
    return k == "code";
  }

  /** `redact_json_value`. */
  method RedactJsonValue(lower: string -> string, v: Json) returns (r: Json)
    ensures r == Redact(Rule(lower), v)
    decreases v, 1
  {
    match v
    case Obj(fields) =>
      var out := RedactMap(lower, fields);
      r := Obj(out);
    case Arr(items) =>
      var out := RedactArray(lower, items);
      r := Arr(out);
    case Str(s) =>
      r := if IsToken(s) then Str(REDACTED_TOKEN) else v;
    case _ =>
      r := v;
  }

  method RedactMap(lower: string -> string, fields: seq<Field>) returns (out: seq<Field>)
    ensures out == RedactFields(Rule(lower), fields)
    decreases fields, 0
  {
    out := [];
    for i := 0 to |fields|
      invariant out + RedactFields(Rule(lower), fields[i..]) == RedactFields(Rule(lower), fields)
    {
      assert fields[i..][1..] == fields[i + 1..] && fields[i] in fields;
      var field := RedactEntry(lower, fields[i]);
      out := out + [field];
    }
    assert out + [] == out;
  }

  method RedactEntry(lower: string -> string, field: Field) returns (r: Field)
    ensures r == RedactField(Rule(lower), field)
    decreases field, 0
  {
    var sensitive := IsSensitive(lower, field.key);
    if sensitive {
      return field.(value := Str(REDACTED));
    }
    var value := RedactJsonValue(lower, field.value);
    return field.(value := value);
  }

  method RedactArray(lower: string -> string, items: seq<Json>) returns (out: seq<Json>)
    ensures out == RedactItems(Rule(lower), items)
    decreases items, 0
  {
    out := [];
    for i := 0 to |items|
      invariant out + RedactItems(Rule(lower), items[i..]) == RedactItems(Rule(lower), items)
    {
      assert items[i..][1..] == items[i + 1..];
      var value := RedactJsonValue(lower, items[i]);
      out := out + [value];
    }
    assert out + [] == out;
  }

  // ---- what the log reveals -----------------------------------------------------------------

  /** Both are tokens, or one is what a token is replaced with. */
  predicate TokenLike(s: string) { IsToken(s) || s == REDACTED_TOKEN }

  /** Two trees that a reader of the log may not tell apart: equal but for what lies
      below hidden keys and for the text of tokens. */
  predicate Alike(hidden: Hidden, a: Json, b: Json) {
    match (a, b)
    case (Obj(f), Obj(g)) => AlikeFields(hidden, f, g)
    case (Arr(s), Arr(t)) => AlikeItems(hidden, s, t)
    case (Str(s), Str(t)) => s == t || (TokenLike(s) && TokenLike(t))
    case _ => a == b
  }

  predicate AlikeItems(hidden: Hidden, s: seq<Json>, t: seq<Json>) {
    |s| == |t| && (s == [] || (Alike(hidden, s[0], t[0]) && AlikeItems(hidden, s[1..], t[1..])))
  }

  predicate AlikeFields(hidden: Hidden, f: seq<Field>, g: seq<Field>) {
    && |f| == |g|
    && (f == [] ||
        (f[0].key == g[0].key && (hidden(f[0].key) || Alike(hidden, f[0].value, g[0].value))
         && AlikeFields(hidden, f[1..], g[1..])))
  }

  /** The log reveals exactly that much: two trees redact to the same tree if and only
      if they are alike. */
  lemma {:induction false} RedactRevealsAlikeness(hidden: Hidden, a: Json, b: Json)
    ensures Redact(hidden, a) == Redact(hidden, b) <==> Alike(hidden, a, b)
    decreases a, 1
  {
    match (a, b)
    case (Obj(f), Obj(g)) => FieldsRevealAlikeness(hidden, f, g);
    case (Arr(s), Arr(t)) => ItemsRevealAlikeness(hidden, s, t);
    case _ =>
  }

  lemma {:induction false} ItemsRevealAlikeness(hidden: Hidden, s: seq<Json>, t: seq<Json>)
    ensures RedactItems(hidden, s) == RedactItems(hidden, t) <==> AlikeItems(hidden, s, t)
    decreases s, 0
  {
    if |s| == |t| && s != [] {
      RedactRevealsAlikeness(hidden, s[0], t[0]);
      ItemsRevealAlikeness(hidden, s[1..], t[1..]);
      var u, v := RedactItems(hidden, s), RedactItems(hidden, t);
      assert u == v <==> u[0] == v[0] && u[1..] == v[1..];
    }
  }

  lemma {:induction false} FieldsRevealAlikeness(hidden: Hidden, f: seq<Field>, g: seq<Field>)
    ensures RedactFields(hidden, f) == RedactFields(hidden, g) <==> AlikeFields(hidden, f, g)
    decreases f, 0
  {
    if |f| == |g| && f != [] {
      RedactRevealsAlikeness(hidden, f[0].value, g[0].value);
      FieldsRevealAlikeness(hidden, f[1..], g[1..]);
      var u, v := RedactFields(hidden, f), RedactFields(hidden, g);
      assert u == v <==> u[0] == v[0] && u[1..] == v[1..];
    }
  }

  /** Redacting again changes nothing. */
  lemma {:induction false} RedactIsIdempotent(hidden: Hidden, v: Json)
    ensures Redact(hidden, Redact(hidden, v)) == Redact(hidden, v)
    decreases v, 1
  {
    match v
    case Obj(f) => FieldsIdempotent(hidden, f);
    case Arr(s) => ItemsIdempotent(hidden, s);
    case _ =>
  }

  lemma {:induction false} ItemsIdempotent(hidden: Hidden, s: seq<Json>)
    ensures RedactItems(hidden, RedactItems(hidden, s)) == RedactItems(hidden, s)
    decreases s, 0
  {
    if s != [] {
      RedactIsIdempotent(hidden, s[0]);
      ItemsIdempotent(hidden, s[1..]);
    }
  }

  lemma {:induction false} FieldsIdempotent(hidden: Hidden, f: seq<Field>)
    ensures RedactFields(hidden, RedactFields(hidden, f)) == RedactFields(hidden, f)
    decreases f, 0
  {
    if f != [] {
      RedactIsIdempotent(hidden, f[0].value);
      FieldsIdempotent(hidden, f[1..]);
    }
  }

  // ---- places in the tree --------------------------------------------------------------------

  /** The value at a path of positions. */
  function At(v: Json, path: seq<nat>): Option<Json> {
    if path == [] then Some(v)
    else
      match v
      case Arr(items) => if path[0] < |items| then At(items[path[0]], path[1..]) else None
      case Obj(fields) => if path[0] < |fields| then At(fields[path[0]].value, path[1..]) else None
      case _ => None
  }

  /** No key on the way hides what is below it. */
  predicate Open(hidden: Hidden, v: Json, path: seq<nat>) {
    path == [] ||
    match v
    case Arr(items) => path[0] < |items| && Open(hidden, items[path[0]], path[1..])
    case Obj(fields) => path[0] < |fields| && !hidden(fields[path[0]].key) && Open(hidden, fields[path[0]].value, path[1..])
    case _ => false
  }

  lemma {:induction false} ItemAt(hidden: Hidden, items: seq<Json>, i: nat)
    requires i < |items|
    ensures RedactItems(hidden, items)[i] == Redact(hidden, items[i])
  {
    if i > 0 {
      ItemAt(hidden, items[1..], i - 1);
    }
  }

  lemma {:induction false} FieldAt(hidden: Hidden, fields: seq<Field>, i: nat)
    requires i < |fields|
    ensures RedactFields(hidden, fields)[i] == RedactField(hidden, fields[i])
  {
    if i > 0 {
      FieldAt(hidden, fields[1..], i - 1);
    }
  }

  /** At an open place stands the redaction of what stood there, with every key and
      every length kept; a hidden key holds the mark and nothing else. */
  lemma {:induction false} OpenPlacesStay(hidden: Hidden, v: Json, path: seq<nat>)
    requires Open(hidden, v, path)
    ensures At(v, path).Some? && At(Redact(hidden, v), path) == Some(Redact(hidden, At(v, path).value))
    ensures var there := At(v, path).value;
            forall i :: there.Obj? && 0 <= i < |there.fields| && hidden(there.fields[i].key) ==>
              At(Redact(hidden, v), path + [i]) == Some(Str(REDACTED))
    decreases path
  {
    if path == [] {
      assert At(v, path) == Some(v);
      if v.Obj? {
        forall i | 0 <= i < |v.fields| && hidden(v.fields[i].key)
          ensures At(Redact(hidden, v), path + [i]) == Some(Str(REDACTED))
        {
          FieldAt(hidden, v.fields, i);
          assert (path + [i])[1..] == [];
        }
      }
    } else {
      var i, rest := path[0], path[1..];
      match v {
        case Arr(items) =>
          ItemAt(hidden, items, i);
          OpenPlacesStay(hidden, items[i], rest);
        case Obj(fields) =>
          FieldAt(hidden, fields, i);
          OpenPlacesStay(hidden, fields[i].value, rest);
      }
      assert forall j: nat :: (path + [j])[1..] == rest + [j] && (path + [j])[0] == i;
    }
  }

  /** The keys that hide their values, word by word. */
  predicate Hides(k: string) {
    || k == "code"
    || exists w | w in ["password", "secret", "token", "auth", "cookie", "key", "credential", "p256dh", "private", "email",
                        "evidence", "snippet"] :: Holds(w, k)
  }

  /** What the log shows at a place that no key hides: a text that looks like a token is
      replaced, every other text, number, truth value and null is shown as it is, and a
      field with a hidden key holds the mark. */
  lemma OpenPlacesShown(lower: string -> string, v: Json, path: seq<nat>)
    requires Open(Rule(lower), v, path)
    ensures forall key :: SensitiveKey(lower, key) <==> Hides(lower(key))
    ensures At(v, path).Some?
    ensures var there, shown := At(v, path).value, At(Redact(Rule(lower), v), path);
            && (there.Str? && ("Bearer " <= there.text || "eyJ" <= there.text) ==> shown == Some(Str("[REDACTED_JWT_TOKEN]")))
            && (there.Str? && !("Bearer " <= there.text) && !("eyJ" <= there.text) ==> shown == Some(there))
            && (there.Number? || there.Bool? || there.Null? ==> shown == Some(there))
            && (there.Obj? ==> forall i :: 0 <= i < |there.fields| && Hides(lower(there.fields[i].key)) ==>
                  At(Redact(Rule(lower), v), path + [i]) == Some(Str("[REDACTED]")))
  {
    OpenPlacesStay(Rule(lower), v, path);
  }

  // ---- URIs --------------------------------------------------------------------------------

  const SENSITIVE_QUERY_KEYS: seq<string> := [
    "token", "access_token", "refresh_token", "code", "password", "secret", "client_secret", "api_key"]

  function LowerAscii(c: char): char { if 'A' <= c <= 'Z' then c - 'A' + 'a' else c }

  predicate SameIgnoringCase(a: string, b: string) {
    |a| == |b| && forall i :: 0 <= i < |a| ==> LowerAscii(a[i]) == LowerAscii(b[i])
  }

  predicate SensitiveQueryKey(k: string) { exists s | s in SENSITIVE_QUERY_KEYS :: SameIgnoringCase(s, k) }

  const MARK: string := "=[REDACTED]"

  /** One pair of the query: the value of a hidden key is replaced. */
  function RedactPair(hidden: Hidden, pair: string): string {
    match SplitOnce(pair, '=')
    case Some((k, _)) => if hidden(k) then k + MARK else pair
    case None => pair
  }

  function RedactPairs(hidden: Hidden, pairs: seq<string>): (r: seq<string>)
    ensures |r| == |pairs|
  {
    if pairs == [] then [] else [RedactPair(hidden, pairs[0])] + RedactPairs(hidden, pairs[1..])
  }

  function RedactUri(hidden: Hidden, uri: string): string {
    match SplitOnce(uri, '?')
    case None => uri
    case Some((path, query)) =>
      if query == "" then uri else path + "?" + Join(RedactPairs(hidden, Split(query, '&')), '&')
  }

  /** The key is the word, in capitals or not. */
  predicate Spells(word: string, k: string) {
    && |word| == |k|
    && forall i :: 0 <= i < |k| ==> k[i] == word[i] || ('a' <= word[i] <= 'z' && k[i] == word[i] - 'a' + 'A')
  }

  lemma CaseAside(word: string, k: string)
    requires forall i :: 0 <= i < |word| ==> 'a' <= word[i] <= 'z' || word[i] == '_'
    ensures SameIgnoringCase(word, k) <==> Spells(word, k)
  {
  }

  /** The query keys that hide their values. */
  lemma HiddenQueryKeysExactly(k: string)
    ensures SensitiveQueryKey(k) <==>
              exists w | w in ["token", "access_token", "refresh_token", "code", "password", "secret", "client_secret",
                               "api_key"] :: Spells(w, k)
  {
    forall w | w in SENSITIVE_QUERY_KEYS
      ensures SameIgnoringCase(w, k) <==> Spells(w, k)
    {
      CaseAside(w, k);
    }
  }

  /** A pair as the log shows it. */
  lemma PairShown(k: string, v: string)
    requires '=' !in k
    ensures RedactPair(SensitiveQueryKey, k + ['='] + v) == if SensitiveQueryKey(k) then k + "=[REDACTED]" else k + ['='] + v
    ensures RedactPair(SensitiveQueryKey, k) == k
  {
    SplitOnceAt(k, v, '=');
  }

  /** `redact_uri_for_log`. */
  method RedactUriForLog(uri: string) returns (out: string)
    ensures out == RedactUri(SensitiveQueryKey, uri)
  {
    var parts := SplitOnce(uri, '?');
    if parts.None? || parts.value.1 == "" {
      return uri;
    }
    var query := RedactQuery(SensitiveQueryKey, Split(parts.value.1, '&'));
    out := parts.value.0 + "?" + query;
  }

  method RedactQuery(hidden: Hidden, pairs: seq<string>) returns (out: string)
    requires pairs != []
    ensures out == Join(RedactPairs(hidden, pairs), '&')
  {
    ghost var all := RedactPairs(hidden, pairs);
    out := RedactPair(hidden, pairs[0]);
    for i := 1 to |pairs|
      invariant out == Join(all[..i], '&')
    {
      PairAt(hidden, pairs, i);
      JoinMore(all[..i], all[i]);
      assert all[..i + 1] == all[..i] + [all[i]];
      out := out + "&" + RedactPair(hidden, pairs[i]);
    }
    assert all[..|pairs|] == all;
  }

  lemma {:induction false} PairAt(hidden: Hidden, pairs: seq<string>, i: nat)
    requires i < |pairs|
    ensures RedactPairs(hidden, pairs)[i] == RedactPair(hidden, pairs[i])
  {
    if i > 0 {
      PairAt(hidden, pairs[1..], i - 1);
    }
  }

  lemma {:induction false} JoinMore(pieces: seq<string>, piece: string)
    requires pieces != []
    ensures Join(pieces + [piece], '&') == Join(pieces, '&') + "&" + piece
  {
    if |pieces| == 1 {
      assert (pieces + [piece])[1..] == [piece];
    } else {
      assert (pieces + [piece])[1..] == pieces[1..] + [piece];
      JoinMore(pieces[1..], piece);
    }
  }

  /** The query of a URI, as its pairs. */
  function Pairs(uri: string): seq<string> {
    match SplitOnce(uri, '?')
    case None => []
    case Some((_, query)) => if query == "" then [] else Split(query, '&')
  }

  function Path(uri: string): string {
    match SplitOnce(uri, '?')
    case None => uri
    case Some((path, _)) => path
  }

  lemma MarkIsPlain()
    ensures MARK == ['='] + REDACTED && '&' !in MARK
  {
    assert MARK[1..] == REDACTED;
  }

  /** A replaced pair keeps its key. */
  lemma MarkedPair(k: string, mark: string, shown: string)
    requires '=' !in k && mark == ['='] + shown && '&' !in mark
    ensures SplitOnce(k + mark, '=') == Some((k, shown))
    ensures '&' in k + mark <==> '&' in k
  {
    SplitOnceAt(k, shown, '=');
    assert k + mark == k + ['='] + shown;
  }

  lemma RedactedPair(hidden: Hidden, pair: string)
    requires '&' !in pair
    ensures '&' !in RedactPair(hidden, pair)
    ensures RedactPair(hidden, RedactPair(hidden, pair)) == RedactPair(hidden, pair)
    ensures pair != "" ==> RedactPair(hidden, pair) != ""
  {
    var parts := SplitOnce(pair, '=');
    if parts.Some? && hidden(parts.value.0) {
      MarkIsPlain();
      MarkedPair(parts.value.0, MARK, REDACTED);
      assert forall c :: c in parts.value.0 ==> c in pair;
    }
  }

  lemma {:induction false} RedactedPairs(hidden: Hidden, pairs: seq<string>)
    requires forall p :: p in pairs ==> '&' !in p
    ensures forall p :: p in RedactPairs(hidden, pairs) ==> '&' !in p
    ensures RedactPairs(hidden, RedactPairs(hidden, pairs)) == RedactPairs(hidden, pairs)
    ensures pairs != [] && pairs != [""] ==> RedactPairs(hidden, pairs) != [""]
  {
    if pairs != [] {
      RedactedPair(hidden, pairs[0]);
      RedactedPairs(hidden, pairs[1..]);
    }
  }

  lemma EmptyJoin(pieces: seq<string>)
    requires pieces != []
    ensures Join(pieces, '&') == "" <==> pieces == [""]
  {
  }

  /** The path stays, the pairs stay as many and in order, and each is the redaction of
      the one it was; so pairs with other keys are untouched. */
  lemma RedactedUriKeepsPairs(hidden: Hidden, uri: string)
    ensures Path(RedactUri(hidden, uri)) == Path(uri)
    ensures Pairs(RedactUri(hidden, uri)) == RedactPairs(hidden, Pairs(uri))
  {
    var parts := SplitOnce(uri, '?');
    if parts.Some? && parts.value.1 != "" {
      var (path, query) := parts.value;
      var pairs := Split(query, '&');
      JoinOfSplit(query, '&');
      RedactedPairs(hidden, pairs);
      var redacted := RedactPairs(hidden, pairs);
      SplitOnceAt(path, Join(redacted, '&'), '?');
      assert path + "?" + Join(redacted, '&') == path + ['?'] + Join(redacted, '&');
      SplitOfJoin(redacted, '&');
      EmptyJoin(pairs);
      EmptyJoin(redacted);
    }
  }

  /** Redacting a redacted URI changes nothing. */
  lemma RedactUriIsIdempotent(hidden: Hidden, uri: string)
    ensures RedactUri(hidden, RedactUri(hidden, uri)) == RedactUri(hidden, uri)
  {
    RedactedUriKeepsPairs(hidden, uri);
    if Pairs(uri) != [] {
      JoinOfSplit(SplitOnce(uri, '?').value.1, '&');
      RedactedPairs(hidden, Pairs(uri));
    }
  }

  /** The same pair, or two values of one hidden key. */
  predicate AlikePair(hidden: Hidden, p: string, q: string) {
    p == q || (HiddenKey(hidden, p).Some? && HiddenKey(hidden, p) == HiddenKey(hidden, q))
  }

  /** The key of a pair whose value is hidden. */
  function HiddenKey(hidden: Hidden, p: string): Option<string> {
    match SplitOnce(p, '=')
    case Some((k, _)) => if hidden(k) then Some(k) else None
    case None => None
  }

  lemma RedactionKeepsHiddenKey(hidden: Hidden, p: string)
    ensures HiddenKey(hidden, RedactPair(hidden, p)) == HiddenKey(hidden, p)
    ensures RedactPair(hidden, p) == if HiddenKey(hidden, p).Some? then HiddenKey(hidden, p).value + MARK else p
  {
    if HiddenKey(hidden, p).Some? {
      MarkIsPlain();
      MarkedPair(HiddenKey(hidden, p).value, MARK, REDACTED);
    }
  }

  lemma PairRevealsKey(hidden: Hidden, p: string, q: string)
    ensures RedactPair(hidden, p) == RedactPair(hidden, q) <==> AlikePair(hidden, p, q)
  {
    RedactionKeepsHiddenKey(hidden, p);
    RedactionKeepsHiddenKey(hidden, q);
  }

  lemma PairsRevealKeys(hidden: Hidden, p: seq<string>, q: seq<string>)
    requires |p| == |q|
    ensures RedactPairs(hidden, p) == RedactPairs(hidden, q) <==> forall i :: 0 <= i < |p| ==> AlikePair(hidden, p[i], q[i])
  {
    forall i | 0 <= i < |p|
      ensures RedactPairs(hidden, p)[i] == RedactPairs(hidden, q)[i] <==> AlikePair(hidden, p[i], q[i])
    {
      PairAt(hidden, p, i);
      PairAt(hidden, q, i);
      PairRevealsKey(hidden, p[i], q[i]);
    }
  }

  lemma QueryStays(hidden: Hidden, uri: string)
    ensures '?' in RedactUri(hidden, uri) <==> '?' in uri
    ensures Pairs(uri) == [] ==> RedactUri(hidden, uri) == uri
    ensures Pairs(uri) == [] ==> uri == if '?' in uri then Path(uri) + ['?'] else Path(uri)
    ensures Pairs(uri) != [] ==> RedactUri(hidden, uri) == Path(uri) + "?" + Join(RedactPairs(hidden, Pairs(uri)), '&')
  {
  }

  /** Two logged URIs are equal if and only if path and query mark agree, the queries
      have as many pairs, and the pairs are alike one by one: the log reveals that, and
      of the value of a hidden key nothing. */
  lemma LoggedUriRevealsAlikeness(hidden: Hidden, a: string, b: string)
    ensures RedactUri(hidden, a) == RedactUri(hidden, b) <==>
              && Path(a) == Path(b) && ('?' in a <==> '?' in b) && |Pairs(a)| == |Pairs(b)|
              && forall i :: 0 <= i < |Pairs(a)| ==> AlikePair(hidden, Pairs(a)[i], Pairs(b)[i])
  {
    RedactedUriKeepsPairs(hidden, a);
    RedactedUriKeepsPairs(hidden, b);
    QueryStays(hidden, a);
    QueryStays(hidden, b);
    if |Pairs(a)| == |Pairs(b)| {
      PairsRevealKeys(hidden, Pairs(a), Pairs(b));
    }
  }

  // ---- truncation --------------------------------------------------------------------------

  const ELLIPSIS: string := "... [truncated]"

  /** How many bytes the first `k` characters take. */
  function Taken(s: string, k: nat): nat
    requires k <= |s|
  {
    |Encode(s[..k])|
  }

  /** `floor_char_boundary`: back from `max` to a byte that starts a character. */
  method FloorCharBoundary(bs: seq<byte>, max: nat) returns (end: nat)
    requires max < |bs|
    ensures end <= max && (end > 0 ==> !Continues(bs[end]))
    ensures forall i :: end < i <= max ==> Continues(bs[i])
  {
    end := max;
    while end > 0 && Continues(bs[end])
      invariant end <= max
      invariant forall i :: end < i <= max ==> Continues(bs[i])
    {
      end := end - 1;
    }
  }

  /** A byte of an encoded text starts a character, or continues one, as it looks. */
  lemma {:induction false} BoundariesShow(s: string, i: nat) returns (k: nat)
    requires i < |Encode(s)|
    ensures k < |s| && Taken(s, k) <= i < Taken(s, k + 1)
    ensures Continues(Encode(s)[i]) <==> i != Taken(s, k)
  {
    var head, n := EncodeChar(s[0]), |EncodeChar(s[0])|;
    if i < n {
      k := 0;
      assert s[..1] == [s[0]] && s[..0] == [];
      assert Encode([s[0]]) == head + Encode([]);
      LeadAndTail(s[0], i);
    } else {
      var j := BoundariesShow(s[1..], i - n);
      k := j + 1;
      TakenAfterFirst(s, j);
      TakenAfterFirst(s, j + 1);
    }
  }

  lemma TakenAfterFirst(s: string, k: nat)
    requires k < |s|
    ensures Taken(s, k + 1) == |EncodeChar(s[0])| + Taken(s[1..], k)
  {
    assert s[..k + 1][1..] == s[1..][..k];
  }

  lemma LeadAndTail(c: char, i: nat)
    requires i < |EncodeChar(c)|
    ensures Continues(EncodeChar(c)[i]) <==> i > 0
  {
  }

  lemma TakenGrows(s: string, j: nat, k: nat)
    requires j <= k <= |s|
    ensures Taken(s, j) <= Taken(s, k)
  {
    EncodeConcat(s[..j], s[j..k]);
    assert s[..j] + s[j..k] == s[..k];
  }

  /** `truncate_utf8_safe`, on the bytes of the text: what is kept is the longest run of
      whole characters that fits. */
  method TruncateUtf8Safe(s: string, max: nat) returns (r: seq<byte>)
    ensures |Encode(s)| <= max ==> r == Encode(s)
    ensures |Encode(s)| > max ==>
              exists k: nat :: k < |s| && Taken(s, k) <= max < Taken(s, k + 1) && r == Encode(s[..k] + "... [truncated]")
  {
    var bs := Encode(s);
    if |bs| <= max {
      return bs;
    }
    var end := FloorCharBoundary(bs, max);
    ghost var k := BoundariesShow(s, max);
    EndIsBoundary(s, max, end, k);
    CutIsPrefix(s, k);
    EncodeConcat(s[..k], ELLIPSIS);
    r := bs[..end] + Encode(ELLIPSIS);
  }

  lemma CutIsPrefix(s: string, k: nat)
    requires k <= |s|
    ensures Taken(s, k) <= |Encode(s)| && Encode(s)[..Taken(s, k)] == Encode(s[..k])
  {
    EncodeConcat(s[..k], s[k..]);
    assert s[..k] + s[k..] == s;
  }

  lemma EndIsBoundary(s: string, max: nat, end: nat, k: nat)
    requires max < |Encode(s)| && k < |s| && Taken(s, k) <= max < Taken(s, k + 1)
    requires end <= max && (end > 0 ==> !Continues(Encode(s)[end]))
    requires forall i :: end < i <= max ==> Continues(Encode(s)[i])
    ensures end == Taken(s, k)
  {
    var b := Taken(s, k);
    if end < b {
      var j := BoundariesShow(s, b);
      BoundaryOf(s, j, k, b);
    } else if b < end {
      var j := BoundariesShow(s, end);
      BoundaryOf(s, j, k, end);
    }
  }

  lemma BoundaryOf(s: string, j: nat, k: nat, i: nat)
    requires j < |s| && k < |s| && Taken(s, j) <= i < Taken(s, j + 1) && Taken(s, k) <= i < Taken(s, k + 1)
    ensures j == k
  {
    if j < k {
      TakenGrows(s, j + 1, k);
    } else if k < j {
      TakenGrows(s, k + 1, j);
    }
  }
}
