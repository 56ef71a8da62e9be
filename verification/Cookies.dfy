/** Reading the session token out of a request, and what cookie headers mean. */
module Cookies {
  import opened Basics
  import opened Http
  import Codec
  import Text
  import TokenStores

  /** The substring search for `name=` and the text up to the next ';', trimmed. */
  function CookieValue(header: string, name: string): string {
    match Text.After(header, name + "=")
    case None => ""
    case Some(rest) => Text.TrimRight(Text.TrimLeft(Text.Until(rest, ';')))
  }

  method ExtractCookie(header: string, name: string) returns (r: string)
    ensures r == CookieValue(header, name)
  {
    var search := name + "=";
    var found := Text.Find(header, search);
    if found.None? {
      return "";
    }
    var pos := found.value + |search|;
    var end := Text.IndexOf(header[pos..], ';');
    var val := if end.None? then header[pos..] else header[pos..pos + end.value];
    assert val == Text.Until(header[pos..], ';');
    ghost var whole := val;
    while val != "" && val[0] == ' '
      invariant Text.TrimLeft(val) == Text.TrimLeft(whole)
      decreases |val|
    {
      val := val[1..];
    }
    ghost var left := val;
    while val != "" && val[|val| - 1] == ' '
      invariant Text.TrimRight(val) == Text.TrimRight(left)
      decreases |val|
    {
      val := val[..|val| - 1];
    }
    return val;
  }

  const SESSION := "session"
  const BEARER := "Bearer "

  /** The value of the session cookie, or "". */
  function SessionValue(req: Request): string {
    if req.cookie.Some? then CookieValue(req.cookie.value, SESSION) else ""
  }

  /** The session cookie when it has a value, else the bearer token, else "". */
  function TokenOf(req: Request): string {
    if SessionValue(req) != "" then SessionValue(req)
    else if req.authorization.Some? && BEARER <= req.authorization.value then req.authorization.value[|BEARER|..]
    else ""
  }

  method ExtractToken(req: Request) returns (token: string)
    ensures token == TokenOf(req)
  {
    if req.cookie.Some? {
      token := ExtractCookie(req.cookie.value, SESSION);
      if token != "" {
        return token;
      }
    }
    if req.authorization.Some? {
      var hv := req.authorization.value;
      if |hv| >= 7 && hv[..7] == BEARER {
        return hv[7..];
      }
    }
    return "";
  }

  /** The store entry behind a request's token, if it has a good one. */
  function Credentials(req: Request, store: map<string, TokenStores.TokenEntry>, now: int)
    : Option<TokenStores.TokenEntry>
  {
    if TokenOf(req) == "" then None else TokenStores.Validate(store, TokenOf(req), now)
  }

  /** Good credentials: a token, in the store, and not past its expiry tick. */
  lemma CredentialsExactly(req: Request, store: map<string, TokenStores.TokenEntry>, now: int,
                           e: TokenStores.TokenEntry)
    ensures var token := TokenOf(req);
            Credentials(req, store, now) == Some(e)
            <==> token != "" && token in store && store[token] == e && now <= e.expiresAt
  {
    hide TokenOf;
  }

  method ValidatedToken(req: Request, tokens: TokenStores.TokenStore, now: int)
    returns (entry: Option<TokenStores.TokenEntry>)
    requires tokens.Valid()
    ensures entry == Credentials(req, tokens.store, now)
  {
    var token := ExtractToken(req);
    if token == "" {
      return None;
    }
    entry := tokens.Lookup(token, now);
  }

  // ---- Cookie headers as lists of pairs ----------------------------------------

  datatype Pair = Pair(name: string, value: string)

  /** Names have no '=', and neither side has a ';' or a space
      (RFC 6265, section 4.1.1, is stricter still). */
  predicate WellFormed(p: Pair) {
    '=' !in p.name && ';' !in p.name && ' ' !in p.name && ';' !in p.value && ' ' !in p.value
  }

  predicate AllWellFormed(pairs: seq<Pair>) {
    forall i | 0 <= i < |pairs| :: WellFormed(pairs[i])
  }

  function PrintPair(p: Pair): string {
    p.name + "=" + p.value
  }

  /** RFC 6265, section 4.2.1: pairs joined by "; ". */
  function Print(pairs: seq<Pair>): string {
    if pairs == [] then ""
    else if |pairs| == 1 then PrintPair(pairs[0])
    else PrintPair(pairs[0]) + "; " + Print(pairs[1..])
  }

  predicate EndsWith(s: string, suffix: string) {
    |suffix| <= |s| && s[|s| - |suffix|..] == suffix
  }

  /** A pair the search stops at: its name ends with the searched name, or its
      value contains the searched text. */
  predicate Stops(p: Pair, name: string) {
    EndsWith(p.name, name) || Text.After(p.value, name + "=").Some?
  }

  /** What the search returns for a pair it stops at. */
  function Payload(p: Pair, name: string): string
    requires Stops(p, name)
  {
    if EndsWith(p.name, name) then p.value
    else Text.After(p.value, name + "=").value
  }

  function FirstStop(pairs: seq<Pair>, name: string): Option<string> {
    if pairs == [] then None
    else if Stops(pairs[0], name) then Some(Payload(pairs[0], name))
    else FirstStop(pairs[1..], name)
  }

  /** The value of the first cookie with exactly this name. */
  function FirstNamed(pairs: seq<Pair>, name: string): Option<string> {
    if pairs == [] then None
    else if pairs[0].name == name then Some(pairs[0].value)
    else FirstNamed(pairs[1..], name)
  }

  predicate GoodName(name: string) {
    '=' !in name && ';' !in name && ' ' !in name
  }

  lemma {:induction false} NothingToTrim(s: string)
    requires ' ' !in s
    ensures Text.TrimRight(Text.TrimLeft(s)) == s
  {
    assert s != "" ==> s[0] in s && s[|s| - 1] in s;
  }

  /** Only the very same name matches at the start of a pair. */
  lemma MatchAtStart(n: string, v: string, name: string)
    requires '=' !in n && '=' !in name
    ensures name + "=" <= n + "=" + v <==> name == n
  {
    var s, pat := n + "=" + v, name + "=";
    if pat <= s {
      Text.UntilUnique(s, '=', n);
      Text.UntilUnique(s, '=', name);
    }
  }

  /** The search inside one printed pair: an occurrence ends at the pair's own
      '=', where the name ends with what is searched for, or lies in the value. */
  lemma {:induction false} FindInPair(n: string, v: string, name: string)
    requires '=' !in n && '=' !in name
    ensures Text.Find(n + "=" + v, name + "=")
            == if EndsWith(n, name) then Some(|n| - |name|)
               else Text.Later(Text.Find(v, name + "="), |n| + 1)
  {
    var s := n + "=" + v;
    hide Text.Find;
    MatchAtStart(n, v, name);
    if n == name {
      Text.FindHere(s, name + "=");
    } else {
      Text.FindNext(s, name + "=");
      if n == "" {
        assert s[1..] == v;
      } else {
        assert s[1..] == n[1..] + "=" + v;
        FindInPair(n[1..], v, name);
        assert |name| < |n| ==> n[|n| - |name|..] == n[1..][|n| - 1 - |name|..];
      }
    }
  }

  /** A text without ';' or ' ' never matches across the "; " between two pairs. */
  lemma {:induction false} FindAcross(s: string, rest: string, pat: string)
    requires pat != "" && ';' !in pat && ' ' !in pat
    ensures Text.Find(s + "; " + rest, pat)
            == if Text.Find(s, pat).Some? then Text.Find(s, pat)
               else Text.Later(Text.Find(rest, pat), |s| + 2)
  {
    hide Text.Find;
    var all := s + "; " + rest;
    NoMatchAcross(s, rest, pat);
    if pat <= s {
      Text.FindHere(s, pat);
      Text.FindHere(all, pat);
    } else if s == "" {
      var next := " " + rest;
      assert all[1..] == next && next[1..] == rest && next[0] == ' ';
      Text.FindNext(all, pat);
      Text.FindNext(next, pat);
      Text.FindInNothing(pat);
    } else {
      assert all[1..] == s[1..] + "; " + rest;
      Text.FindNext(s, pat);
      Text.FindNext(all, pat);
      FindAcross(s[1..], rest, pat);
    }
  }

  lemma NoMatchAcross(s: string, rest: string, pat: string)
    requires pat != "" && ';' !in pat && ' ' !in pat
    ensures pat <= s + "; " + rest <==> pat <= s
  {
    var all := s + "; " + rest;
    assert all[|s|] == ';' && all[..|s|] == s;
    assert forall k | 0 <= k < |pat| :: pat[k] != ';';
  }

  /** The payload is what follows the search's match. */
  lemma PayloadFollows(p: Pair, name: string)
    requires '=' !in p.name && '=' !in name
    ensures Text.After(PrintPair(p), name + "=") == if Stops(p, name) then Some(Payload(p, name)) else None
  {
    FindInPair(p.name, p.value, name);
    if EndsWith(p.name, name) {
      assert PrintPair(p)[|p.name| + 1..] == p.value;
    } else {
      Text.AfterInRight(p.name + "=", p.value, name + "=");
    }
  }

  /** Cutting at ';' and trimming leaves a clean value as it is. */
  lemma CleanCut(v: string, rest: string)
    requires ';' !in v && ' ' !in v
    ensures Text.TrimRight(Text.TrimLeft(Text.Until(v, ';'))) == v
    ensures Text.TrimRight(Text.TrimLeft(Text.Until(v + ("; " + rest), ';'))) == v
  {
    var all := v + ("; " + rest);
    assert all[|v|] == ';';
    Text.UntilUnique(all, ';', v);
    Text.UntilUnique(v, ';', v);
    NothingToTrim(v);
  }

  lemma AfterAcross(s: string, rest: string, pat: string)
    requires pat != "" && ';' !in pat && ' ' !in pat && Text.Find(s, pat).Some?
    ensures Text.After(s + "; " + rest, pat) == Some(Text.After(s, pat).value + ("; " + rest))
  {
    hide Text.Find;
    FindAcross(s, rest, pat);
    assert s + "; " + rest == s + ("; " + rest);
    Text.AfterInLeft(s, "; " + rest, pat);
  }

  /** What is cut out of a header that starts with a pair the search stops at. */
  lemma CutOut(p: Pair, rest: string, name: string)
    requires WellFormed(p) && GoodName(name) && Stops(p, name)
    ensures CookieValue(PrintPair(p), name) == Payload(p, name)
    ensures CookieValue(PrintPair(p) + "; " + rest, name) == Payload(p, name)
  {
    PayloadFollows(p, name);
    PayloadIsClean(p, name);
    AfterAcross(PrintPair(p), rest, name + "=");
    CleanCut(Payload(p, name), rest);
  }

  lemma PayloadIsClean(p: Pair, name: string)
    requires WellFormed(p) && Stops(p, name)
    ensures ';' !in Payload(p, name) && ' ' !in Payload(p, name)
  {
  }

  /** A pair the search does not stop at can be left out. */
  lemma SkipPair(p: Pair, rest: string, name: string)
    requires WellFormed(p) && GoodName(name) && !Stops(p, name)
    ensures CookieValue(PrintPair(p), name) == ""
    ensures CookieValue(PrintPair(p) + "; " + rest, name) == CookieValue(rest, name)
  {
    var s, pat := PrintPair(p), name + "=";
    PayloadFollows(p, name);
    FindAcross(s, rest, pat);
    Text.AfterInRight(s + "; ", rest, pat);
  }

  /** For every list of well-formed pairs the search returns the payload of the
      first pair it stops at, or "". */
  lemma {:induction false} ParsePrinted(pairs: seq<Pair>, name: string)
    requires AllWellFormed(pairs) && GoodName(name)
    ensures CookieValue(Print(pairs), name) == OrEmpty(FirstStop(pairs, name))
  {
    if pairs == [] {
    } else {
      var rest := pairs[1..];
      if Stops(pairs[0], name) {
        CutOut(pairs[0], Print(rest), name);
      } else {
        SkipPair(pairs[0], Print(rest), name);
        ParsePrinted(rest, name);
      }
    }
  }

  /** When only cookies of exactly this name stop the search, it finds the first of them. */
  lemma {:induction false} ParseFindsNamed(pairs: seq<Pair>, name: string)
    requires AllWellFormed(pairs) && GoodName(name)
    requires forall i | 0 <= i < |pairs| :: Stops(pairs[i], name) ==> pairs[i].name == name
    ensures CookieValue(Print(pairs), name) == OrEmpty(FirstNamed(pairs, name))
  {
    ParsePrinted(pairs, name);
    StopsAtNamed(pairs, name);
  }

  lemma {:induction false} StopsAtNamed(pairs: seq<Pair>, name: string)
    requires forall i | 0 <= i < |pairs| :: Stops(pairs[i], name) ==> pairs[i].name == name
    ensures FirstStop(pairs, name) == FirstNamed(pairs, name)
  {
    if pairs == [] || pairs[0].name == name {
    } else {
      StopsAtNamed(pairs[1..], name);
    }
  }

  /** Index of the first pair that stops the search. */
  ghost predicate StopsFirst(pairs: seq<Pair>, name: string, k: int) {
    0 <= k < |pairs| && Stops(pairs[k], name) && forall j | 0 <= j < k :: !Stops(pairs[j], name)
  }

  lemma {:induction false} FirstStopAt(pairs: seq<Pair>, name: string, k: int)
    requires StopsFirst(pairs, name, k)
    ensures FirstStop(pairs, name) == Some(Payload(pairs[k], name))
  {
    if k == 0 {
    } else {
      assert !Stops(pairs[0], name);
      FirstStopAt(pairs[1..], name, k - 1);
    }
  }

  lemma {:induction false} NeverStops(pairs: seq<Pair>, name: string)
    requires forall j | 0 <= j < |pairs| :: !Stops(pairs[j], name)
    ensures FirstStop(pairs, name) == None && FirstNamed(pairs, name) == None
  {
    if pairs == [] {
    } else {
      NeverStops(pairs[1..], name);
    }
  }

  /** List by list: the search is a lookup by name when the first pair it stops at,
      if any, is that cookie, or happens to hold the same text. */
  lemma ParseIsLookupExactly(pairs: seq<Pair>, name: string)
    requires AllWellFormed(pairs) && GoodName(name)
    ensures CookieValue(Print(pairs), name) == OrEmpty(FirstNamed(pairs, name))
            <==> forall k :: StopsFirst(pairs, name, k) ==>
                   pairs[k].name == name || Payload(pairs[k], name) == OrEmpty(FirstNamed(pairs, name))
  {
    ParsePrinted(pairs, name);
    if j :| 0 <= j < |pairs| && Stops(pairs[j], name) {
      var k := SomeStopsFirst(pairs, name, j);
      FirstStopAt(pairs, name, k);
      assert forall i :: StopsFirst(pairs, name, i) ==> i == k;
      if pairs[k].name == name {
        NamedAt(pairs, name, k);
      }
    } else {
      NeverStops(pairs, name);
    }
  }

  lemma {:induction false} SomeStopsFirst(pairs: seq<Pair>, name: string, j: int) returns (k: int)
    requires 0 <= j < |pairs| && Stops(pairs[j], name)
    ensures StopsFirst(pairs, name, k)
  {
    k := 0;
    while !Stops(pairs[k], name)
      invariant 0 <= k <= j
      invariant forall i | 0 <= i < k :: !Stops(pairs[i], name)
      decreases j - k
    {
      k := k + 1;
    }
  }

  lemma {:induction false} NamedAt(pairs: seq<Pair>, name: string, k: int)
    requires StopsFirst(pairs, name, k) && pairs[k].name == name
    ensures FirstNamed(pairs, name) == Some(pairs[k].value)
  {
    if k == 0 {
    } else {
      assert !Stops(pairs[0], name);
      NamedAt(pairs[1..], name, k - 1);
    }
  }

  // ---- When the search is a lookup by name, whatever the values ------------------------

  /** Cookies with these names and values. */
  function Assigned(names: seq<string>, values: seq<string>): seq<Pair>
    requires |names| == |values|
  {
    seq(|names|, i requires 0 <= i < |names| => Pair(names[i], values[i]))
  }

  predicate GoodNames(names: seq<string>) {
    forall i | 0 <= i < |names| :: GoodName(names[i])
  }

  /** A cookie value; a plain one does not contain the searched text. */
  predicate GoodValue(v: string) {
    ';' !in v && ' ' !in v
  }

  predicate PlainValue(v: string, name: string) {
    GoodValue(v) && Text.After(v, name + "=").None?
  }

  predicate LooksUp(names: seq<string>, values: seq<string>, name: string)
    requires |names| == |values|
  {
    CookieValue(Print(Assigned(names, values)), name) == OrEmpty(FirstNamed(Assigned(names, values), name))
  }

  /** The search is the lookup by name for cookies of these names, whatever their
      plain values. */
  ghost predicate LooksUpPlain(names: seq<string>, name: string) {
    forall values: seq<string> |
      |values| == |names| && forall i | 0 <= i < |values| :: PlainValue(values[i], name) ::
      LooksUp(names, values, name)
  }

  /** And whatever their values at all. */
  ghost predicate LooksUpAlways(names: seq<string>, name: string) {
    forall values: seq<string> |
      |values| == |names| && forall i | 0 <= i < |values| :: GoodValue(values[i]) ::
      LooksUp(names, values, name)
  }

  /** The first of the names that ends with the searched one is at k. */
  ghost predicate FirstEnding(names: seq<string>, name: string, k: int) {
    0 <= k < |names| && EndsWith(names[k], name) && forall j | 0 <= j < k :: !EndsWith(names[j], name)
  }

  lemma AssignedAreGood(names: seq<string>, values: seq<string>)
    requires |names| == |values| && GoodNames(names)
    requires forall i | 0 <= i < |values| :: GoodValue(values[i])
    ensures AllWellFormed(Assigned(names, values))
  {
  }

  /** Where every cookie of that name is empty, the lookup gives "". */
  lemma {:induction false} NamedEmpty(pairs: seq<Pair>, name: string)
    requires forall i | 0 <= i < |pairs| :: pairs[i].name == name ==> pairs[i].value == ""
    ensures OrEmpty(FirstNamed(pairs, name)) == ""
  {
    if pairs == [] {
    } else {
      NamedEmpty(pairs[1..], name);
    }
  }

  /** A first stop at another name with a non-empty payload, all else being empty,
      is not a lookup. */
  lemma StopAtOther(names: seq<string>, name: string, k: int, v: string)
    requires GoodNames(names) && GoodName(name) && 0 <= k < |names| && names[k] != name && GoodValue(v)
    requires StopsFirst(Assigned(names, Lone(|names|, k, v)), name, k)
    requires Payload(Pair(names[k], v), name) != ""
    ensures !LooksUp(names, Lone(|names|, k, v), name)
  {
    var pairs := Assigned(names, Lone(|names|, k, v));
    AssignedAreGood(names, Lone(|names|, k, v));
    hide CookieValue, Print;
    ParsePrinted(pairs, name);
    FirstStopAt(pairs, name, k);
    NamedEmpty(pairs, name);
  }

  /** All values empty but one. */
  function Lone(n: nat, k: int, v: string): seq<string> {
    seq(n, i => if i == k then v else "")
  }

  lemma OneLetterIsPlain(name: string)
    ensures PlainValue("v", name) && PlainValue("", name)
  {
    assert name + "=" != "v" by {
      assert (name + "=")[|name|] == '=';
    }
  }

  /** The search is the lookup by name, for all plain values, exactly when the first
      cookie whose name ends with the searched name, if any, has that very name. */
  lemma PlainLookupExactly(names: seq<string>, name: string)
    requires GoodNames(names) && GoodName(name)
    ensures LooksUpPlain(names, name) <==> forall k :: FirstEnding(names, name, k) ==> names[k] == name
  {
    hide CookieValue, Print;
    if forall k :: FirstEnding(names, name, k) ==> names[k] == name {
      forall values: seq<string> |
        |values| == |names| && forall i | 0 <= i < |values| :: PlainValue(values[i], name)
        ensures LooksUp(names, values, name)
      {
        PlainStops(names, values, name);
        AssignedAreGood(names, values);
        ParseIsLookupExactly(Assigned(names, values), name);
      }
    }
    if k :| FirstEnding(names, name, k) && names[k] != name {
      var values := Lone(|names|, k, "v");
      OneLetterIsPlain(name);
      PlainStops(names, values, name);
      StopAtOther(names, name, k, "v");
      assert !LooksUp(names, values, name);
    }
  }

  /** With plain values only names stop the search. */
  lemma PlainStops(names: seq<string>, values: seq<string>, name: string)
    requires |names| == |values| && forall i | 0 <= i < |values| :: PlainValue(values[i], name)
    ensures forall i | 0 <= i < |names| :: Stops(Assigned(names, values)[i], name) <==> EndsWith(names[i], name)
    ensures forall k :: StopsFirst(Assigned(names, values), name, k) <==> FirstEnding(names, name, k)
  {
    hide Text.After;
  }

  lemma TextInValue(name: string)
    ensures Text.After(name + "=" + "v", name + "=") == Some("v")
  {
    var pat := name + "=";
    assert pat <= pat + "v" && (pat + "v")[|pat|..] == "v";
  }

  /** For all values whatever, it is exactly when the searched cookie comes first,
      or there is none at all. */
  lemma LookupExactly(names: seq<string>, name: string)
    requires GoodNames(names) && GoodName(name)
    ensures LooksUpAlways(names, name) <==> names == [] || names[0] == name
  {
    hide CookieValue, Print, Text.After, Text.Find;
    if names == [] || names[0] == name {
      forall values: seq<string> | |values| == |names| && forall i | 0 <= i < |values| :: GoodValue(values[i])
        ensures LooksUp(names, values, name)
      {
        AssignedAreGood(names, values);
        ParseIsLookupExactly(Assigned(names, values), name);
        assert forall k :: StopsFirst(Assigned(names, values), name, k) ==> k == 0;
      }
    } else {
      var v := name + "=" + "v";
      TextInValue(name);
      assert GoodValue(v) && Assigned(names, Lone(|names|, 0, v))[0] == Pair(names[0], v);
      StopAtOther(names, name, 0, v);
      assert !LooksUp(names, Lone(|names|, 0, v), name);
    }
  }

  // ---- The cookie a client sends back ---------------------------------------------------

  /** A printed token is non-empty and has no character a cookie could break at. */
  lemma TokenIsText(bytes: TokenStores.TokenBytes)
    ensures var token := Codec.ToHex(bytes);
            token != "" && ';' !in token && ' ' !in token && '=' !in token
  {
    Codec.ToHexIsHex(bytes);
  }

  /** The request sends the token of these bytes back as its cookie "session", among
      other cookies of which none in front stops the search. */
  ghost predicate Echoes(req: Request, bytes: TokenStores.TokenBytes, before: seq<Pair>, after: seq<Pair>) {
    && AllWellFormed(before) && AllWellFormed(after)
    && (forall i | 0 <= i < |before| :: !Stops(before[i], "session"))
    && req.cookie == Some(Print(before + [Pair("session", Codec.ToHex(bytes))] + after))
  }

  lemma FoundAmong(before: seq<Pair>, mine: Pair, after: seq<Pair>)
    requires AllWellFormed(before) && WellFormed(mine) && AllWellFormed(after)
    requires mine.name == "session"
    requires forall i | 0 <= i < |before| :: !Stops(before[i], "session")
    ensures CookieValue(Print(before + [mine] + after), "session") == mine.value
  {
    hide Print, CookieValue, Text.After;
    var pairs := before + [mine] + after;
    assert pairs[|before|] == mine;
    FirstStopAt(pairs, "session", |before|);
    ParsePrinted(pairs, "session");
  }

  /** Such a request is read back as carrying that very token. */
  lemma EchoIsRead(req: Request, bytes: TokenStores.TokenBytes, before: seq<Pair>, after: seq<Pair>)
    requires Echoes(req, bytes, before, after)
    ensures SessionValue(req) == Codec.ToHex(bytes) && TokenOf(req) == Codec.ToHex(bytes)
    ensures Codec.ToHex(bytes) != ""
  {
    hide Codec.ToHex, Print, CookieValue, Stops;
    TokenIsText(bytes);
    FoundAmong(before, Pair("session", Codec.ToHex(bytes)), after);
  }

  /** A bearer token is read when no session cookie has a value, and only then; with
      neither there is no token. */
  lemma BearerIsRead(req: Request, token: string)
    requires req.cookie.None? || CookieValue(req.cookie.value, "session") == ""
    ensures req.authorization == Some("Bearer " + token) ==> TokenOf(req) == token
    ensures req.authorization.None? ==> TokenOf(req) == ""
    ensures req.authorization.Some? && !("Bearer " <= req.authorization.value) ==> TokenOf(req) == ""
  {
    hide CookieValue;
    assert ("Bearer " + token)[7..] == token;
  }

  lemma {:induction false} TrimmedLeft(blanks: string, v: string)
    requires (forall i | 0 <= i < |blanks| :: blanks[i] == ' ') && (v == "" || v[0] != ' ')
    ensures Text.TrimLeft(blanks + v) == v
  {
    if blanks == "" {
      assert blanks + v == v;
    } else {
      assert (blanks + v)[1..] == blanks[1..] + v;
      TrimmedLeft(blanks[1..], v);
    }
  }

  lemma {:induction false} TrimmedRight(v: string, blanks: string)
    requires (forall i | 0 <= i < |blanks| :: blanks[i] == ' ') && (v == "" || v[|v| - 1] != ' ')
    ensures Text.TrimRight(v + blanks) == v
  {
    if blanks == "" {
      assert v + blanks == v;
    } else {
      var n := |blanks| - 1;
      assert (v + blanks)[..|v| + n] == v + blanks[..n];
      TrimmedRight(v, blanks[..n]);
    }
  }

  /** Blanks around a value are not part of it. */
  lemma BlanksAreTrimmed(name: string, left: string, v: string, right: string, rest: string)
    requires forall i | 0 <= i < |left| :: left[i] == ' '
    requires forall i | 0 <= i < |right| :: right[i] == ' '
    requires v != "" && v[0] != ' ' && v[|v| - 1] != ' ' && ';' !in v
    requires rest == "" || rest[0] == ';'
    ensures CookieValue(name + "=" + (left + v + right + rest), name) == v
  {
    var search, value := name + "=", left + v + right;
    var header := search + (value + rest);
    assert left + v + right + rest == value + rest;
    assert search <= header && header[|search|..] == value + rest;
    Text.FindHere(header, search);
    assert ';' !in value;
    Text.UntilUnique(value + rest, ';', value);
    assert value == left + (v + right);
    TrimmedLeft(left, v + right);
    TrimmedRight(v, right);
  }

  /** The search is not a lookup by name: a cookie called "xsession" shadows the
      session cookie behind it. */
  lemma DecoyShadowsSession()
    ensures CookieValue("xsession=a; session=b", SESSION) == "a"
    ensures FirstNamed([Pair("xsession", "a"), Pair("session", "b")], SESSION) == Some("b")
  {
    hide CookieValue, Text.Find, Text.After;
    var decoy := Pair("xsession", "a");
    assert PrintPair(decoy) + "; " + "session=b" == "xsession=a; session=b";
    assert decoy.name[1..] == SESSION;
    CutOut(decoy, "session=b", SESSION);
    assert [decoy, Pair("session", "b")][1..] == [Pair("session", "b")];
  }
}
