# webengine: a verified model

This project models the session, access-control and routing engine of `webengine`
and the two controllers that drive its reverse proxy, and proves properties of
them over every run. `dafny verify dfyconfig.toml` checks everything.

## What is modelled

**The engine.** Each object of the source that updates fields is a class: `Acl`,
`TokenStore`, `Router`, `TestAuthProvider`, `AuthHandler` and `WebEngine`. Their
methods keep the source's loops and are proved against functions on finite maps:
the longest-prefix rule (`PrefixMatch`, `Acls.Required`, `Routers.Answer`), the
token store at a time (`TokenStores.Validate`), the substring search for a cookie
(`Cookies.CookieValue`), the password record (`AuthProviders.Verifies`) and the map
from URL to file (`FileMapping.MapFile`).

On top stands a state machine (`Engines`). Any number of threads serve requests in
atomic steps, one for each lock the source takes or file it reads: table lookup,
token validation, reading a user record, minting or revoking a token, asking the
access list, updating it or the user table, reading a file. Between any two steps
other threads, host calls (`set_api_role`, `protect_path`, user management, ...) and
clock ticks may come. An event that does not fit changes nothing, so *every* sequence
of events is a run, and the theorems speak of all of them.
`WebEngines.WebEngine.Serve` is proved equal to the state machine left to one thread,
so objects and state machine are one model. What each endpoint does and answers is
stated in the fields of the request, the texts of its headers and the numbers of its
statuses (`Sessions`, `CheckServing`, `FileServing`, `Management`).

**The controllers.** `NginxController` and `LighttpdController` are classes that
act on a `Host`: the snippet file, the server process, and a ghost record of every
command and observation. All assumptions about the environment are in two
functions, `ServerHost.Effect` and `ServerHost.Possible`, and a server listens where
the text it has loaded says (`ListenSnippet.ListensOn`, which reads that text):

- only the controller starts the server or writes the snippet;
- `is_running()` reports the truth; a running server may die at any time;
- a command that fails loads nothing, one that succeeds loads the snippet as it is;
- a launched lighttpd comes up within 31 observations (the 30 polls and the final
  look) or never.

What the environment answers to each command, observation, write and directory is
read from a script, and every theorem holds for every script. So contracts can also
say which answers make a call succeed, and a scenario can be played on a real
controller. The snippet is replaced by the steps of `AtomicFile`, whose own theorem
covers crashes.

## What the proofs found

- **Cookie search.** `extract_cookie` finds text, not names: `xsession=a; session=b`
  yields `a` (`Cookies.DecoyShadowsSession`). The comment at
  `backend/src/util.hpp:18` promises the value of the named cookie. Given the names of
  the cookies, the code keeps that promise for all values without the searched text
  exactly when the first name that ends with the searched one, if any, is that name
  (`Cookies.PlainLookupExactly`), and for all values whatever exactly when that cookie
  comes first or there are no cookies (`Cookies.LookupExactly`).
- **Two gates.** `WebEngine.hpp` says files served by the backend pass the same gate
  as `/auth-check`. `/auth-check` matches the URI with its query, the file handler
  without. They agree exactly when every rule whose prefix contains a `?` asks for
  what its query-free part needs anyway (`AuthHandlers.GatesAgreeExactly`); with the
  one rule `/a?b` for Guest they do not (`AuthHandlers.GatesDisagree`).
- **Rules and reading.** The file handler asks the access list under its lock and
  opens the file later under none. Every 200 answer goes back to a moment when the
  rules accepted it (`FileServing.ServedFile`), which need not be the moment of the
  answer: the rule can be raised in between
  (`FileServing.RulesMayChangeBeforeTheAnswer`). The rules of the answer's own moment
  refuse it exactly when some edit in between decided the path, leaving it asking for
  more than the role, and no later one did (`RuleEdits.RefusedExactly`, applied in
  `ServedFile` and, over any span of events, in `FileServing.ReadIgnoresTheRules`).
  The proxy's check likewise validates the token first and asks the rules later
  (`CheckServing.PassedCheck`): a logout in between does not stop it
  (`CheckServing.CheckIgnoresTheToken`).
- **Empty root.** With an empty `fs_root` files are looked up from `/`; the mapping
  stays inside its root exactly when the root is not empty
  (`FileMapping.InsideExactly`).
- **Served and reported ports.** lighttpd always serves the ports its controller
  reports, even after a lost rollback, because each start follows a fresh write.
  nginx can drift, in one way only: a rollback write fails, and `reload()` loads what
  it left in the snippet before any write has succeeded. Drift is a predicate on the
  record of actions, in a recursive form (`ServerHost.Drift`) and in one sentence
  (`ServerHost.DriftExactly`), and a running nginx serves the reported ports exactly
  when it does not hold (`NginxControllers.NginxController.Drive`). A later successful
  write does not end it: `NginxControllers.NextWriteDoesNotEndDrift` plays four calls
  on a controller that end with a correct snippet and a server on other ports. The
  next start ends it, and so does the next reload of a snippet without such leftovers.

## Model

| member | source | states |
|---|---|---|
| Basics.RolesAreOrdered | backend/include/webengine/Role.hpp:10-31 | who satisfies which requirement, role by role: Guest < Viewer < User < Admin, strictly |
| Basics.RoleNames | backend/include/webengine/Role.hpp:21-27 | exactly four texts name a role, and which |
| Http.PathIsTheTarget | backend/src/AuthHandler.cpp:96-100 | the path of a target is all of it, or what stands before the first '?' |
| PrefixMatch.LongestIs | backend/src/Acl.hpp:27-32 | a matching key that no matching key exceeds is what trying ever shorter pieces of the path finds, so scan order is irrelevant |
| Acls.Acl.Authorize | backend/src/Acl.hpp:24-35 | the scan decides as the longest matching prefix of the rule map does, Admin when none matches |
| Acls.WhatDecides | backend/src/Acl.hpp:24-35 | a path asks for the role of the longest rule that matches it, and only an Admin gets in where none matches |
| Acls.Acl.Set | backend/src/Acl.hpp:38-44 | prefixes stay unique and the rule map is updated at this prefix only |
| Acls.Acl.Remove | backend/src/Acl.hpp:46-50 | prefixes stay unique, the order of the others is kept, and the rule map loses this prefix only |
| Acls.OrderIrrelevant | backend/src/Acl.hpp:24-35 | vectors with the same entries, in any order, need the same role on every path |
| Acls.SetIsLocal | backend/src/Acl.hpp:24-44 | setting a rule changes exactly the paths whose longest match it then is |
| Acls.RemoveFallsBack | backend/src/Acl.hpp:24-50 | removing a rule falls back to the next shorter match or Admin where it decided, and changes nothing elsewhere |
| Acls.RemoveUndoesSet | backend/src/Acl.hpp:38-50 | removing a just-added absent prefix restores every decision |
| Acls.GateIsMonotone | backend/include/webengine/Role.hpp:29-31 | raising a rule or lowering the caller's role never opens a path, for any table |
| Acls.QueryBlindExactly | backend/src/Acl.hpp:24-35 | a URI and its query-free path need the same role everywhere iff each rule with a '?' agrees with its own query-free part |
| TokenStores.TokenStore.Issue | backend/src/TokenStore.hpp:28-45 | the token is the hex text of the random bytes, recorded with user, role and so many nanoseconds from now; without random bytes nothing changes |
| TokenStores.EightHours | backend/src/TokenStore.hpp:29 | a token lives for eight hours, as a number of nanoseconds |
| TokenStores.TokenStore.Lookup | backend/src/TokenStore.hpp:47-54 | an entry is returned iff it is there and its expiry tick has not passed (inclusive) |
| TokenStores.TokenStore.Revoke | backend/src/TokenStore.hpp:56-59 | the token is gone, every other entry stays, and the store is still the replay of its history |
| TokenStores.ValidateIsHistory | backend/src/TokenStore.hpp:42-59 | a token validates to an entry iff the latest event about it is the issue that recorded this entry and it has not expired |
| TokenStores.ExpiredIsInvisible | backend/src/TokenStore.hpp:47-54 | dropping expired entries at any earlier moments of any history changes no later lookup |
| Cookies.ExtractCookie | backend/src/util.hpp:19-33 | the search, cut and trimming loops compute the cookie-value function |
| Cookies.ExtractToken | backend/src/util.hpp:37-52 | a non-empty session cookie wins, else a bearer header, else "" |
| Cookies.BearerIsRead | backend/src/util.hpp:37-52 | without a session cookie value "Bearer " + t is read as t, and anything else as no token |
| Cookies.ValidatedToken | backend/src/util.hpp:56-61 | no token is no credentials; otherwise exactly the store's answer for the token |
| Cookies.CredentialsExactly | backend/src/util.hpp:56-61 | credentials are good iff there is a token, it is in the store, and its expiry tick has not passed |
| Cookies.FindInPair | backend/src/util.hpp:22-24 | inside name=value the search stops at the '=' iff the name ends with the searched name, else inside the value |
| Cookies.FindAcross | backend/src/util.hpp:22-26 | no match crosses the "; " between two cookies |
| Cookies.ParsePrinted | backend/src/util.hpp:19-33 | for every list of well-formed pairs the parse of the printed header is the payload of the first pair that stops the search, or "" |
| Cookies.ParseFindsNamed | backend/src/util.hpp:18-33 | when only cookies of that very name stop the search, the first of them is returned, or "" |
| Cookies.PlainLookupExactly | backend/src/util.hpp:18-33 | for cookies of given names and all values without the searched text, the search is the lookup by name iff the first name ending with the searched one, if any, is that name |
| Cookies.LookupExactly | backend/src/util.hpp:18-33 | for all values whatever it is iff the searched cookie comes first or there is no cookie |
| Cookies.DecoyShadowsSession | backend/src/util.hpp:18-33 | a header on which the promised lookup by name fails |
| Cookies.BlanksAreTrimmed | backend/src/util.hpp:26-33 | blanks around a value, up to its ";" or the end, are not part of it |
| Cookies.EchoIsRead | backend/src/util.hpp:37-42 | a request that sends the cookie "session" back, behind cookies that do not stop the search, carries exactly that token |
| Routers.Router.AddRoute | backend/src/Router.cpp:8-13 | exactly one exact route is put or replaced, prefix routes untouched |
| Routers.Router.AddPrefixRoute | backend/src/Router.cpp:15-27 | keys stay unique and the prefix map is updated at this (verb, prefix) only |
| Routers.Router.SetRouteRole | backend/src/Router.cpp:29-40 | the role changes on exactly the exact routes at the path, in any visiting order, and true iff there was one |
| Routers.Router.Find | backend/src/Router.cpp:56-72 | the scan answers as the table specification does: exact route, else longest prefix of the verb |
| Routers.Router.Dispatch | backend/src/Router.cpp:42-87 | 404 iff no route answers; a public route runs without a user; otherwise 401, 403 or the token's own user |
| Routers.AnswerIsBestMatch | backend/src/Router.cpp:52-73 | an exact route always answers; without one a route answers iff it is the unique longest matching prefix of the verb |
| Routers.RegistrationOrderIrrelevant | backend/src/Router.cpp:15-27 | the order in which prefix routes were registered never matters |
| Routers.RerolingIsLocal | backend/src/Router.cpp:29-40 | re-roling changes answers only at exact routes of that path, and only their role |
| Routers.FileHandlerSeesItsPrefix | backend/src/WebEngine.cpp:128-140 | when a mounted file handler is the answer, its prefix and the remainder rebuild the path |
| Codec.HexRoundTrip | backend/include/webengine/TestAuthProvider.hpp:107-122 | decoding printed bytes gives the bytes back |
| Codec.DecimalRoundTrip | backend/include/webengine/TestAuthProvider.hpp:135-148 | reading a printed number gives the number back |
| Codec.DecimalDigits | backend/src/NginxController.cpp:52 | printing is positional in base ten |
| Codec.HexDigits | backend/src/TokenStore.hpp:37-40 | a byte is its two lower-case hexadecimal digits, bytes one after the other |
| Codec.DecimalThenStop | backend/src/NginxController.cpp:52-54 | a printed number followed by a non-digit can be read in one way only |
| AuthProviders.ToHex | backend/include/webengine/TestAuthProvider.hpp:107-112 | the buffer-filling loop prints two lower-case digits for every byte |
| AuthProviders.FromHex | backend/include/webengine/TestAuthProvider.hpp:114-122 | the buffer-filling loop decodes every pair of digits |
| AuthProviders.TestAuthProvider.Pbkdf2Hash | backend/include/webengine/TestAuthProvider.hpp:125-138 | the record printed for a password and random salt; none without random bytes |
| AuthProviders.TestAuthProvider.Pbkdf2Verify | backend/include/webengine/TestAuthProvider.hpp:142-162 | a record without two colons, with a bad iteration count or key length fails; else the derived key decides |
| AuthProviders.RecordRoundTrip | backend/include/webengine/TestAuthProvider.hpp:125-153 | a printed record is split at the right colons and decodes to the same iterations, salt and key |
| AuthProviders.StoredText | backend/include/webengine/TestAuthProvider.hpp:124-139 | the text stored for a password: 200000, 16 bytes of salt and 32 of key, in this order |
| AuthProviders.VerifyRecord | backend/include/webengine/TestAuthProvider.hpp:143-162 | any printed record accepts exactly the passwords that derive its key, which must have 32 bytes, under its salt and count, which must fit an int |
| AuthProviders.NotARecord | backend/include/webengine/TestAuthProvider.hpp:143-146 | a text without two colons accepts nobody |
| AuthProviders.VerifyHash | backend/include/webengine/TestAuthProvider.hpp:125-162 | a password verifies against a printed record iff it derives the same key under that salt |
| AuthProviders.TestAuthProvider.Authenticate | backend/include/webengine/TestAuthProvider.hpp:41-59 | the role of the user's own record iff the password verifies against that same record |
| AuthProviders.TestAuthProvider.SeedUser | backend/include/webengine/TestAuthProvider.hpp:97-101 | upsert of one user with a fresh record; nothing changes without random bytes |
| AuthProviders.TestAuthProvider.RemoveUser | backend/include/webengine/TestAuthProvider.hpp:68-71 | exactly this user goes, true iff present |
| AuthProviders.TestAuthProvider.SetUserRole | backend/include/webengine/TestAuthProvider.hpp:73-79 | exactly this user's role changes, hash kept, true iff present |
| AuthProviders.ManagedUser | backend/include/webengine/TestAuthProvider.hpp:41-101 | after adding, re-roling and removing one user, its logins answer accordingly and every other user's login is unaffected |
| FileMapping.ToFile | backend/src/AuthHandler.cpp:116-126 | the in-place edits of `rel` and `file` compute the file map; below the mount exactly ".." is refused |
| FileMapping.RefusesDotsOnly | backend/src/AuthHandler.cpp:117-121 | a path below the mount is refused iff ".." occurs behind the mount |
| FileMapping.MapsTo | backend/src/AuthHandler.cpp:116-126 | any other path is mapped to the directory served, one "/", and the name behind the mount without leading slashes, or the index file of the directory named |
| FileMapping.RelIsProper | backend/src/AuthHandler.cpp:117-122 | what is read has a remainder that is not empty, not absolute and without ".." |
| FileMapping.FileBelowRoot | backend/src/AuthHandler.cpp:116-126 | the file's components are the root's followed by the remainder's, and it resolves to the resolved root plus the remainder's names |
| FileMapping.InsideExactly | backend/src/AuthHandler.cpp:116-126 | the file resolves inside the root iff the root is not empty |
| FileMapping.DistinctPlaces | backend/src/AuthHandler.cpp:116-126 | distinct clean paths under one mount resolve to distinct places |
| AuthHandlers.AuthHandler.HandleLogin | backend/src/AuthHandler.cpp:36-56 | 401 without a record that the password matches, a throw without random bytes, else 200 with exactly this cookie for a token stored with that record's role for eight hours |
| AuthHandlers.AuthHandler.HandleLogout | backend/src/AuthHandler.cpp:58-71 | exactly the token in the cookie "session" is revoked, which for a cookie sent back among others is the token of the login; without cookie nothing is; 200 and the cookie cleared |
| AuthHandlers.AuthHandler.HandleCheck | backend/src/AuthHandler.cpp:73-90 | 401 iff the token is bad, 403 iff the rules refuse the named URI, else 200 with exactly the user and role of the token |
| AuthHandlers.AuthHandler.HandleProtectedFile | backend/src/AuthHandler.cpp:92-135 | 302 to the login page, 403 by the rules or for "..", 404, or 200 with the content of exactly the mapped file |
| AuthHandlers.GatesAgreeExactly | backend/src/AuthHandler.cpp:73-114 | the two gates agree on every request and token iff each rule with a '?' agrees with its query-free part |
| AuthHandlers.GatesDisagree | backend/src/AuthHandler.cpp:73-114 | a rule on which the gates disagree: "/a?b" for Guest |
| AuthHandlers.FileOutcomeIsHandlers | backend/src/AuthHandler.cpp:96-114 | the compared outcome is what the file handler does: redirect, 403, or on to the file |
| Engines.SoloIsARun | backend/src/Router.cpp:42-98 | left to one thread, every request is answered within five steps, with the sequential result |
| Engines.SoloDispatch | backend/src/Router.cpp:42-98 | the steps of dispatch compose to lookup, gate, handler |
| Engines.SoloLogin | backend/src/AuthHandler.cpp:36-56 | the three steps of a login compose to the sequential login |
| Engines.SoloCheck | backend/src/AuthHandler.cpp:73-90 | the steps of the check compose to the sequential check |
| Engines.SoloFile | backend/src/AuthHandler.cpp:92-135 | the steps of file serving compose to the sequential handler |
| Engines.SoloManage | backend/src/WebEngine.cpp:166-244 | the management handlers finish in one step, adding a user in two; what they do is `Management.ManagedAlone` |
| Management.ManagedAlone | backend/src/WebEngine.cpp:166-244 | left to one thread, a management request adds a user with the requested role and a hash of the given password, re-roles keeping the hash, removes, or edits a rule, for the named one only; and when it answers 200, 400, 404 or 500 |
| Management.ManagesInOneStep | backend/src/WebEngine.cpp:166-244 | in every interleaving, the same for every management request but adding a user |
| Management.AddsInTwoSteps | backend/src/WebEngine.cpp:198-212 | adding a user is refused at once, changing nothing, or hashed first |
| Management.InsertsAsRequested | backend/src/WebEngine.cpp:198-212 | in every run a pending insertion, whenever it comes, adds the user its own request named, with the role and password of the request |
| Management.NobodyElseEditsUsers | backend/src/WebEngine.cpp:198-244 | no other event changes the user table, but the host's own user calls |
| Management.HostEditsOneUser | backend/include/webengine/TestAuthProvider.hpp:68-101 | the host's own user calls change one user each, and a new role keeps the hash |
| Dispatching.DispatchLinearises | backend/src/Router.cpp:52-93 | in every interleaving a running handler was the table's answer at one moment since arrival, and at a later moment its token validated to exactly the user passed, with a satisfying role |
| Dispatching.HandlerLinearises | backend/src/Router.cpp:52-93 | the same for a thread in the middle of any handler, between any two of its steps |
| Dispatching.EveryAnswerLinearises | backend/src/Router.cpp:42-98 | in every interleaving every answer goes back to a lookup since arrival that found nothing (404), a lookup and a later token validation that failed the route's role (401, 403), or an invocation |
| Dispatching.AnsweredWithinFiveSteps | backend/src/Router.cpp:42-98 | whatever other threads and the host do, a request is answered by the fifth step of its own thread |
| Sessions.LoginIsCoherent | backend/include/webengine/TestAuthProvider.hpp:41-59 | under any user management, name and role of a verified login come from one record present at one moment of the call, whose own hash was checked |
| Sessions.LoginStepsExactly | backend/src/AuthHandler.cpp:36-56 | in every run, how a login goes on from step to step and when it answers 401, 500 or 200 with which cookie |
| Sessions.TokenStep | backend/src/TokenStore.hpp:42-59 | an event changes the store at a token only by minting or revoking it |
| Sessions.TokenStays | backend/src/TokenStore.hpp:42-59 | a minted token stays as minted until minted or revoked again |
| Sessions.TokenStaysAway | backend/src/TokenStore.hpp:56-59 | a revoked token stays away until minted again |
| Sessions.TokenOrigin | backend/src/AuthHandler.cpp:45-50 | every token in the store is as its latest minting recorded it, not logged out since, and that minting ended a coherent login |
| Sessions.LoginMints | backend/src/AuthHandler.cpp:50-56 | every 200 of a login carries the cookie of a token minted by that very step |
| Sessions.LoginAnswersExactly | backend/src/AuthHandler.cpp:50-56 | a login is answered with a token's cookie iff that event mints the token |
| Sessions.SessionSurvives | backend/src/AuthHandler.cpp:50-56 | with fresh tokens, after a login answered 200 with the cookie and until logout or expiry, requests with the token are that user with the login-time role, through any other events |
| Sessions.SessionEnds | backend/src/AuthHandler.cpp:58-71 | with fresh tokens, a token a login was answered with is never accepted again once logged out |
| Sessions.LogoutStep | backend/src/AuthHandler.cpp:58-71 | in every run a logout takes exactly the token in its cookie "session" out of the store |
| Sessions.LogoutEndsTheSession | backend/src/AuthHandler.cpp:58-71 | with fresh tokens, after a logout that sends the login's cookie back, no request that sends it back is accepted again |
| Sessions.EchoIsPair | backend/src/AuthHandler.cpp:52-55 | the Set-Cookie text up to its first ';' is the session pair |
| Sessions.EchoIsRecognised | backend/src/util.hpp:37-42 | echoed among other cookies that do not stop the search before it, the pair is read back as the minted token |
| Provenance.WhoChanges | backend/src/WebEngine.cpp:161-247 | without host calls only the management handlers change the access list or the user table |
| Provenance.AdminProvenance | backend/src/WebEngine.cpp:161-247 | every such change is made serving a request whose token validated as Admin, minted by a login that read that user's Admin record |
| Provenance.TableIsFixed | backend/src/Router.cpp:42-98 | without host calls the routing table never changes |
| Provenance.WithoutAdminsNothingChanges | backend/src/WebEngine.cpp:161-247 | if no user is Admin to begin with, neither table changes in any run |
| FileServing.MountsStay | backend/src/WebEngine.cpp:128-140 | file handlers stay mounted under their own prefix in every run |
| FileServing.HandlerSeesItsPrefix | backend/src/AuthHandler.cpp:96-118 | in every run, the path of a thread anywhere in a file handler starts with the handler's prefix |
| FileServing.ServedFile | backend/src/AuthHandler.cpp:92-135 | every 200 answer of a file handler has three moments since arrival: the token was good for an entry, later the rules accepted its role, later still the content was that of the mapped file, inside the root iff the root is not empty; the rules of that last moment accept it too iff no edit has closed the path since |
| FileServing.FileGatesExactly | backend/src/AuthHandler.cpp:102-114 | in every run, when a file handler redirects, refuses or goes on |
| FileServing.ReadAnswersExactly | backend/src/AuthHandler.cpp:116-134 | in every run, past the rules: 403 for "..", else 200 with the file of that name or the index of that directory, or 404 |
| FileServing.ReadIgnoresTheRules | backend/src/AuthHandler.cpp:111-134 | in every run, over any span of events between the check and the read, the answer is 200, and against the rules of its moment iff an edit in that span closed the path and none decided it since |
| FileServing.RulesMayChangeBeforeTheAnswer | backend/src/AuthHandler.cpp:111-134 | a run from an idle engine that answers 200 while the rules of that moment refuse |
| RuleEdits.EditStep | backend/src/WebEngine.cpp:116-196 | an event changes the access list only by the edit it makes: a host call or a good management request |
| RuleEdits.EditDecides | backend/src/Acl.hpp:24-50 | an edit changes what a path asks for iff it sets or drops the longest match, and then to the role set, the next shorter rule, or Admin |
| RuleEdits.RefusedExactly | backend/src/Acl.hpp:24-50 | in every run, a path open to a role at one moment is closed to it later iff some event between decides it and leaves it asking for more, and no later one decides it |
| RuleEdits.OpenUnlessDecided | backend/src/Acl.hpp:24-50 | a path stays open to a role while no event decides it |
| CheckServing.PassedCheck | backend/src/AuthHandler.cpp:73-90 | every 200 of the check has a moment since arrival when its token was good for the user and role in the answer, and the rules of the later moment of the answer accept that role for the URI, if one is named |
| CheckServing.CheckAnswersExactly | backend/src/AuthHandler.cpp:73-90 | in every run, when the check answers 401, 403 or 200, and with which user and role |
| CheckServing.CheckIgnoresTheToken | backend/src/AuthHandler.cpp:73-90 | after the token was found good, over any span of events no logout, expiry or user management changes the answer: 200 unless an edit in the span closed the URI |
| WebEngines.WebEngine.AddApi | backend/src/WebEngine.cpp:103-108 | exactly this route is put in the table, as the host call of the state machine says |
| WebEngines.WebEngine.SetApiRole | backend/src/WebEngine.cpp:110-114 | exactly the answers of exact routes at the path change, and only in their role |
| WebEngines.WebEngine.ProtectPath | backend/src/WebEngine.cpp:116-120 | exactly this rule is set |
| WebEngines.WebEngine.UnprotectPath | backend/src/WebEngine.cpp:122-126 | exactly this rule is dropped |
| WebEngines.WebEngine.ServeProtectedFiles | backend/src/WebEngine.cpp:128-140 | a public GET prefix route with the prefix copied into its handler |
| WebEngines.WebEngine.EnableAuthEndpoints | backend/src/WebEngine.cpp:144-159 | exactly the three public authentication routes are added |
| WebEngines.WebEngine.EnableAdminEndpoints | backend/src/WebEngine.cpp:161-247 | exactly the seven Admin routes are added |
| WebEngines.BuiltinsAreGuarded | backend/src/WebEngine.cpp:144-247 | on a table that meets the premise of admin provenance, the built-in endpoints keep it, and mount no stray file handler |
| WebEngines.SetUp | backend/src/WebEngine.cpp:128-247 | built-in endpoints and one mount on a new engine leave exactly that table, no tokens and no rules |
| WebEngines.BuiltinAnswers | backend/src/WebEngine.cpp:128-247 | for every verb and path: the three public endpoints, the seven for an Admin, the file handler below the mount, and nothing else |
| WebEngines.BuiltinEngineIsAdminOnly | backend/src/WebEngine.cpp:144-247 | from that state and without further host calls, every change to the access list or the user table serves a request whose token was minted by a login that read an Admin record, and there is none if no user is Admin |
| WebEngines.WebEngine.Manage | backend/src/WebEngine.cpp:166-244 | on the objects, what each management request does to rules and users and answers, in the fields of its body; and that is what its steps in the state machine do |
| WebEngines.WebEngine.Invoke | backend/src/Router.cpp:92-97 | on the objects, each handler does what its steps do, and a throw becomes 500 |
| WebEngines.WebEngine.Serve | backend/src/Router.cpp:42-98 | serving one request on the objects equals the state machine left to one thread |
| AtomicFile.OldOrNew | backend/src/ProcessUtil.cpp:126-147 | after a call, at every moment of every interleaving with failures and crashes, the target holds the old or the full new content; true means new, false means old |
| AtomicFile.UntouchedBefore | backend/src/ProcessUtil.cpp:126-147 | before any call nothing changes |
| AtomicFile.Disk.WriteFileAtomic | backend/src/ProcessUtil.cpp:126-147 | whichever step fails, the target is the new content iff none did and true is returned, else untouched and an error is set |
| ListenSnippet.NginxInjective | backend/src/NginxController.cpp:50-57 | an nginx snippet determines the HTTP port, whether TLS is on, and the TLS port if so |
| ListenSnippet.LighttpdInjective | backend/src/LighttpdController.cpp:49-61 | so does a lighttpd snippet, and the certificate file |
| ListenSnippet.SnippetDeterminesPorts | backend/src/NginxController.cpp:50-57 | for either server two snippets are equal iff they enable the same ports |
| ListenSnippet.NginxIsRead | backend/src/NginxController.cpp:50-57 | read as nginx does, the first listen line has the HTTP port, and there is a second, with ssl and the HTTPS port, iff TLS is on |
| ListenSnippet.LighttpdIsRead | backend/src/LighttpdController.cpp:49-61 | `server.port` is the HTTP port, and there is an enabled TLS socket, on the HTTPS port and with the certificate file, iff TLS is on |
| ListenSnippet.ListensExactly | backend/src/NginxController.cpp:50-57 | a loaded snippet listens on the given ports iff it was rendered from the same enabled ones |
| ServerHost.EveryStartIsGuarded | backend/src/NginxController.cpp:66-77 | in a disciplined record every start follows at once on a passing test of the just-written rendering of the current ports, after the server was seen down |
| ServerHost.EveryReloadIsGuarded | backend/src/NginxController.cpp:85-90 | every reload follows at once on a passing test of what it loads, after the server was seen up |
| ServerHost.LeftoverExactly | backend/src/NginxController.cpp:124-131 | ports are left over iff the last rollback write failed over them and no write has succeeded since |
| ServerHost.DriftExactly | backend/src/NginxController.cpp:85-133 | a record has drifted iff some reload loaded, before any good write, the ports a lost rollback had left, other than the reported ones, and nothing has been loaded since |
| NginxControllers.NginxController.constructor | backend/include/webengine/NginxController.hpp:51-52 | a new controller of a stopped server meets the invariant, whatever snippet is there |
| NginxControllers.NginxController.Report | backend/src/NginxController.cpp:11-31 | a failed child leaves a message, a successful one leaves the old |
| NginxControllers.NginxController.EnsureDirs | backend/src/NginxController.cpp:40-48 | the parent and the five leaf directories are all tried, in order; true iff all were made, and failure leaves a message |
| NginxControllers.AllSixDirs | backend/src/NginxController.cpp:40-48 | which six directories are tried, in order |
| NginxControllers.NginxController.WriteListenSnippet | backend/src/NginxController.cpp:50-57 | the snippet written listens on exactly the option ports, or the file is untouched; what a lost rollback left over is recorded, and forgotten on success |
| NginxControllers.NginxController.On | backend/src/NginxController.cpp:66-77 | true iff the server is up, and exactly when the environment lets it; a start is observe down, write, test, start, and then serves the options; the record stays disciplined |
| NginxControllers.NginxController.Off | backend/src/NginxController.cpp:79-83 | a stopped server gets no command, a running one exactly one quit |
| NginxControllers.NginxController.Reload | backend/src/NginxController.cpp:85-90 | true iff seen up, tested and loaded; false loads nothing; the server drifts iff it loads other ports that a lost rollback left over |
| NginxControllers.NginxController.Reset | backend/src/NginxController.cpp:92-102 | true iff the environment lets it stop within 50 polls and a final look and start anew; then the new server listens on the option ports |
| NginxControllers.NginxController.SetListenPort | backend/src/NginxController.cpp:106-109 | only the HTTP port changes, and only on success, with the snippet written and a running server on it |
| NginxControllers.NginxController.SetListenPorts | backend/src/NginxController.cpp:111-133 | transactional: success reports, writes and serves the new ports; failure reports the old and leaves what is served alone, with the file untouched, rolled back, or a lost rollback on record; the answers of the environment that lead to each are stated |
| NginxControllers.NginxController.Drive | backend/src/NginxController.cpp:66-133 | over every sequence of calls the reported ports are the last accepted pair, the record grows and stays disciplined, and a running server serves the reported ports iff the record has not drifted, with the snippet holding those ports or the leftover |
| NginxControllers.NextWriteDoesNotEndDrift | backend/src/NginxController.cpp:85-133 | four calls on a controller after which the last write succeeded, nothing is left over, and the running server serves other ports than reported |
| LighttpdControllers.LighttpdController.constructor | backend/include/webengine/LighttpdController.hpp:63-64 | a new controller of a stopped server meets the invariant |
| LighttpdControllers.LighttpdController.Report | backend/src/LighttpdController.cpp:12-31 | a failed child leaves a message, a successful one leaves the old |
| LighttpdControllers.LighttpdController.WriteListenSnippet | backend/src/LighttpdController.cpp:49-61 | the snippet written listens on exactly the option ports, or the file is untouched |
| LighttpdControllers.LighttpdController.AwaitUp | backend/src/LighttpdController.cpp:85-90 | after 30 polls and a final look the launch is settled: up on what it read, or never |
| LighttpdControllers.LighttpdController.On | backend/src/LighttpdController.cpp:71-92 | true iff the server is up, and exactly when the environment lets it come up in time; it then listens on the option ports; a start is observe down, write, test, launch, then only polls |
| LighttpdControllers.LighttpdController.Off | backend/src/LighttpdController.cpp:94-101 | a stopped server gets no signal, a running one at most one, and when it succeeds |
| LighttpdControllers.LighttpdController.Reset | backend/src/LighttpdController.cpp:103-113 | true iff the environment lets it stop and start anew in time, on the options; false with the server up leaves it on what it had loaded |
| LighttpdControllers.LighttpdController.Reload | backend/src/LighttpdController.cpp:115-122 | a failed test leaves the running server and the file alone; true iff seen up, tested, and restarted on the options |
| LighttpdControllers.LighttpdController.SetListenPort | backend/src/LighttpdController.cpp:126-129 | only the HTTP port changes, and only on success, with the snippet written; a server that is up serves the reported ports |
| LighttpdControllers.LighttpdController.SetListenPorts | backend/src/LighttpdController.cpp:131-153 | transactional as for nginx, exactly when the environment lets it succeed, and a server still up always listens on the reported ports |
| LighttpdControllers.LighttpdController.Drive | backend/src/LighttpdController.cpp:71-153 | over every sequence of calls the reported ports are the last accepted pair, the record grows and stays disciplined, and a running server serves the reported ports, with no exception |

## Left out

- FromHex: requires hexadecimal digits, because what `sscanf` does on other text is not modelled; stored records always have them.
- Pbkdf2Verify: takes records whose fields are in the printer's alphabet (`StoredHash`), because only the printer writes them; `stoi` on other text is not modelled.
- SessionSurvives: assumes that the random source never repeats a token; the step model itself does not.
- SessionEnds: assumes the same.
- Off: for lighttpd, signalling a recycled process id is one of the outcomes of the signal, without further effect.
- Transport, keep-alive and signal handling: requests are records, threads are abstract.
- JSON reading and writing, response bodies of the listing endpoints, error texts and content types: bodies are already-parsed optional fields, and an unparsable login body may leave any fields behind.
- Host code in custom handlers: it answers or throws as an oracle chooses, and the host calls it makes are events of their own.
- Cryptography: PBKDF2 is an arbitrary function of password, salt and iterations; timing and failure of the library calls are not modelled.
- Other authentication providers, the read-only answers 501, and the test accounts seeded by default.
- The steady clock's finite width: time is an unbounded number of nanoseconds.
- Reading a file while it is being changed: a file is read at one moment.
- Processes: spawning, pid files and `/proc` are observations and exit codes of the host; that an accepted nginx reload may still fail to bind is not modelled.
- Power loss and symbolic links: a crash stops the writing process, and paths are resolved by their text.
- Two threads in one controller: it has no lock, and its methods run one at a time.
- Whether the message left by a failing controller call is from that call: it is shown to be non-empty only.
- The server-kind factory, environment parsing in the example, and all deployment files.
