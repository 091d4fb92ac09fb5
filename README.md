# Skill registry and dispatch of the Ava assistant, in Dafny

Ava forwards each structured message it reads to a remote package, which
Ava calls a skill. Three functions in `rpc.go` decide where a message goes:

- `RegisterPackage` dials a package's RPC port. It then records the package
  in the process-wide map `regPkgs`, under three kinds of key:
  - every lower-cased `command_object` pair of the package's trigger;
  - every lower-cased bare command;
  - no key for an object on its own (an object token can still match a
    bare key that some command registered).
- `getPkg` finds the package for a message:
  - a message without a user goes to the `onboard` package;
  - otherwise it takes the first registered pair, with commands in the
    outer loop and objects in the inner loop;
  - on the way it remembers bare command and object keys it finds;
  - when no package is found, it falls back to the route stored in the
    user's last response.
- `callPkg` picks the remote method, either `Title(name).FollowUp` or
  `Title(name).Run`. It stamps the route on the message and makes the call.

The model keeps the program's shape:

- **`Strings`** holds the pure key builders:
  - ASCII `Lower`;
  - `StripLiteral`, which cuts a token at its first apostrophe;
  - `Title`;
  - `Itoa` for the port.
- **`Skills`** holds the package records and the `Registry` class. The
  class has:
  - the `pkgs` map;
  - a ghost log of the duplicate-key warnings;
  - the `Register` method, whose two nested loops become a method and a
    helper method.

  `Register` is proved against `PerformAll`, a fold of the writes it
  performs. The lemmas then say what that fold does to the map and the log.
- **`Routing`** holds the `Message` class and the getPkg model:
  - `Search`, the labelled nested loop, split into `Search`, `ScanCommand`
    and `ScanObjects`. It is proved equal to `SearchOutcome`, which is
    defined from `FirstHit`, `LastRegistered` and `ShortRoute`; those in
    turn are characterised by lemmas.
  - `GetPkg`, proved equal to the function `Resolve`.
- **`Dispatch`** holds `MethodName` and `CallPkg`.

The network and the database are not modelled: the caller supplies their
outcomes.

- `rpc.Dial` becomes a function `dial` from the address to a `DialResult`.
- `m.GetLastResponse(db)` becomes a `LastLookup` value: the store failed,
  or it answered with a last response or with none.
- `RPCClient.Call` becomes a function `call`. It receives the client, the
  method name and the message as it is sent (with its route stamped).

## Model

| member | source | states |
|---|---|---|
| Strings.LowerChar | rpc.go:32 | ASCII lower-casing of one character: upper-case letters move down by 32, every other character is kept, and no upper-case letter is left |
| Strings.UpperChar | rpc.go:122 | ASCII upper-casing of one character, the letter change strings.Title makes |
| Strings.Lower | rpc.go:32-34 | strings.ToLower keeps the length; its contract says only that, and LowerIsPointwise pins every character |
| Strings.LowerIsPointwise | rpc.go:32-34 | strings.ToLower keeps the length and maps each character on its own |
| Strings.LowerConcat | rpc.go:34 | lower-casing a concatenation is concatenating the lower-cased parts |
| Strings.LowerIdempotent | rpc.go:32-34 | lower-casing an already lower-cased command changes nothing |
| Strings.CompoundKey | rpc.go:34 | the route key lower(command + "_" + object) is one longer than the two tokens together; RegistrationKeyIsCompoundKey ties it to the key registration stores |
| Strings.RegistrationKeyIsCompoundKey | rpc.go:32-34 | the key registration builds from the lowered command is the key lower(c + "_" + o), the same one getPkg builds from the raw tokens |
| Strings.StripLiteral | rpc.go:63-65 | Split(s, "'")[0] is never longer than s; StripLiteralIsPrefixBeforeQuote characterises it fully |
| Strings.StripLiteralIsPrefixBeforeQuote | rpc.go:63-65 | Split(s, "'")[0] is a prefix of s without an apostrophe, and it ends at an apostrophe or at the end of s |
| Strings.StripLiteralKeepsPlainToken | rpc.go:63-65 | a token without an apostrophe is kept whole |
| Strings.TitleFrom | rpc.go:122 | title casing keeps the length and upper-cases exactly the characters that follow a separator |
| Strings.Title | rpc.go:122 | strings.Title of the package name keeps its length; TitleFrom says which characters are upper-cased |
| Strings.TitleOnlyChangesCase | rpc.go:122 | the title-cased package name differs from the name only in letter case |
| Strings.NatToDecimal | rpc.go:24 | the decimal rendering of the port is a non-empty run of digits |
| Strings.Itoa | rpc.go:23 | strconv.Itoa gives a non-empty string that starts with a minus sign exactly for a negative number; ItoaRoundTrip is its inverse |
| Strings.ItoaRoundTrip | rpc.go:24 | strconv.Itoa of the port reads back as the same integer, negative ports included |
| Strings.NatToDecimalRoundTrip | rpc.go:24 | the digits of a natural number read back as that number |
| Skills.Lookup | rpc.go:35 | the lookup is present exactly when the key is registered, and it then holds the registered entry |
| Skills.ListenPort | rpc.go:21 | no contract of its own: the listen port is Port + 1, which DialAddress's contract reads back |
| Skills.DialAddress | rpc.go:21-25 | the dialed address is the server address, a colon and a decimal string that reads back as Port + 1 |
| Skills.CompoundWrites | rpc.go:33-40 | one write per object, in object order, under the object's compound key with the command, each marked as compound |
| Skills.CommandWrites | rpc.go:31-42 | one command's writes: its compound writes followed by a last, bare write of the command's key |
| Skills.RegistrationWrites | rpc.go:31-43 | no contract of its own: the writes of every command in order; RegistrationWritesContain, RegistrationWritesOnly and RegistrationKeys characterise it |
| Skills.KeysOf | rpc.go:31-43 | no contract of its own: the set of keys written; KeysOfMembers characterises it |
| Skills.KeysOfMembers | rpc.go:31-43 | the keys written are exactly the keys of the writes performed |
| Skills.Perform | rpc.go:35-40 | no contract of its own: one map write, logging a warning first when a compound key is present; PerformAllPkgs and PerformAllLog state its effect over a run of writes |
| Skills.PerformAll | rpc.go:31-43 | no contract of its own: the writes applied in order; PerformAllAppend, PerformAllPkgs and PerformAllLog characterise it |
| Skills.AfterObjects | rpc.go:33-41 | no contract of its own: the state after the inner loop's first j rounds; AfterObjectsPerformsCompoundWrites equates it with the write fold |
| Skills.AfterCommands | rpc.go:31-43 | no contract of its own: the state after the outer loop's first i rounds; AfterCommandsPerformsRegistrationWrites equates it with the write fold |
| Skills.PerformAllAppend | rpc.go:31-43 | performing two runs of writes in turn is performing their concatenation |
| Skills.AfterObjectsPerformsCompoundWrites | rpc.go:33-41 | the inner loop performs the compound writes of its command's objects, in order |
| Skills.AfterCommandsPerformsRegistrationWrites | rpc.go:31-43 | the outer loop performs, command by command, the compound writes and then the bare command write |
| Skills.PerformAllPkgs | rpc.go:40-42 | after registration the keys are the old keys plus the written ones; every written key maps to the new entry (last writer wins) and every other key is unchanged |
| Skills.PerformAllLog | rpc.go:35-39 | the warning log only grows, and it grows by the collisions of the writes with the keys already present |
| Skills.Collisions | rpc.go:35-39 | at most one warning per write, each naming the registering package; CollisionsMembers says exactly which |
| Skills.CollisionsMembers | rpc.go:35-39 | a warning is logged exactly for a compound write whose key was present when it was written, whether it was registered before or written earlier in the same registration; bare command writes never warn |
| Skills.CompoundWritesContain | rpc.go:33-40 | every object of the trigger produces its compound write |
| Skills.CompoundWritesOnly | rpc.go:33-40 | the inner loop writes nothing but compound keys of its command |
| Skills.RegistrationWritesContain | rpc.go:31-43 | every command writes its bare key and its compound key with every object |
| Skills.RegistrationWritesOnly | rpc.go:31-43 | every write is a trigger pair's compound key or a command's lowered bare key |
| Skills.RegistrationKeys | rpc.go:31-43 | a key is touched by registration if and only if it is a trigger pair's compound key or a command's lowered key, so registration writes no key for an object on its own |
| Skills.NoCommandsRegistersNothing | rpc.go:31 | a package with no commands changes neither the map nor the log, whatever its objects |
| Skills.SecondRegistrationWins | rpc.go:35-40 | when two packages share a trigger pair, the second registration takes the shared key and logs a duplicate warning for it |
| Skills.Registry.constructor | rpc.go:16 | the registry starts empty with no warnings |
| Skills.Registry.Register | rpc.go:21-45 | a failed dial returns its error and changes nothing; a successful one returns no error and leaves the map and log as PerformAll of the registration writes |
| Skills.Registry.WriteObjects | rpc.go:33-41 | the inner loop leaves the state AfterObjects says: one write per object, warning on a present key |
| Routing.Message.constructor | rpc.go:47-59 | a message carries the user flag, the command and object tokens and the last response getPkg reads, and an empty route |
| Routing.RouteKey | rpc.go:63-66 | the key getPkg looks up for a command and an object, each cut at its first apostrophe, is no longer than the two raw tokens with a separator |
| Routing.FirstObject | rpc.go:64-72 | the index it finds holds a registered compound key |
| Routing.FirstObjectIsFirst | rpc.go:64-72 | no earlier object's compound key is registered, and nothing is found only when none is |
| Routing.FirstHit | rpc.go:61-72 | the pair it finds is in range and registered |
| Routing.FirstHitIsFirst | rpc.go:61-72 | no pair before the found one in command-outer, object-inner order is registered, and nothing is found only when no pair is |
| Routing.FirstHitAt | rpc.go:61-72 | a registered pair with no registered pair before it is the one found |
| Routing.LastRegistered | rpc.go:73-81 | the bare key it remembers is always registered; LastRegisteredIsLast says which one |
| Routing.LastRegisteredIsLast | rpc.go:73-81 | the bare key remembered is registered and comes from a token with no registered token after it; nothing is remembered only when no token is registered |
| Routing.ShortRoute | rpc.go:73-81 | a non-empty remembered bare route (shortRoute after the loop) is a registered key |
| Routing.LastPairKey | rpc.go:66 | the last pair's key is empty exactly when no pair was visited |
| Routing.SearchOutcome | rpc.go:58-85 | the package the search leaves is a registered entry, and a message without commands leaves no package and an empty route |
| Routing.ScanObjects | rpc.go:64-77 | the inner loop stops exactly at the first registered compound key and returns its entry and key; otherwise it leaves the last pair's key, the last object's bare entry and the last registered bare object |
| Routing.ScanCommand | rpc.go:62-81 | one round of the labelled loop: a hit as above, or no pair of this command matches, p becomes the command's own bare entry, and the command is remembered if registered |
| Routing.Search | rpc.go:58-85 | the labelled loop returns SearchOutcome: the first matching pair's entry and key, or the last command's bare entry with the remembered bare key (or the last pair's key) as route |
| Routing.Fallback | rpc.go:86-104 | the fallback succeeds exactly when it returns a package; then the route is that package's key and the last response is cleared; the flag is raised only with ErrMissingPackage, keeping the loaded last response |
| Routing.Resolve | rpc.go:47-108 | getPkg as a function: every package it returns is a registered entry, and a message without a user gets route "onboard"; the lemmas below state its cases |
| Routing.GetPkg | rpc.go:47-108 | getPkg returns exactly Resolve's package, route, flag and error, and leaves the message's last response as Resolve says |
| Routing.NilUserResolvesOnboard | rpc.go:49-57 | a user-less message gets the onboard entry, or ErrMissingPackage with route "onboard"; the flag is false and the tokens do not matter |
| Routing.ExactMatchWins | rpc.go:61-72 | the first registered pair gives its entry and key as route, with flag false, no error and the last response untouched |
| Routing.LaterCommandsIgnored | rpc.go:61-72 | once a pair matches, appending further commands changes nothing |
| Routing.NoExactMatchUsesLastCommand | rpc.go:62-82 | with no matching pair the package is the last command's bare entry (cut, not lowered), or nothing when there are no commands |
| Routing.SearchRouteNamesPackage | rpc.go:73-85 | when the search finds a package and the last command does not cut to the empty token, the route is that package's key; without a matching pair it is the last command's cut token |
| Routing.FallbackOutcomes | rpc.go:86-104 | a store error is returned unchanged; no last response gives ErrMissingPackage; in both the search's route is kept; an unregistered route gives ErrMissingPackage with flag true and the last response kept; a registered route gives its entry, flag false and the last response cleared |
| Routing.ErrorsCarryNoPackage | rpc.go:47-108 | getPkg returns an error exactly when it returns no package, and raises the flag only together with ErrMissingPackage |
| Routing.FallbackConsumedOnce | rpc.go:95-104 | a successful fallback clears the last response, so resolving the same tokens again against the cleared value fails with ErrMissingPackage |
| Dispatch.FollowUpWanted | rpc.go:123 | no contract of its own: the condition that selects FollowUp; SuccessIgnoresLastRoute says what it reduces to on success |
| Dispatch.MethodName | rpc.go:122-128 | the method name is longer than the package name and ends, after the package name's length, in ".FollowUp" or ".Run" as chosen |
| Dispatch.MethodNamePrefix | rpc.go:122 | the method name starts with a case variant of the package name |
| Dispatch.MethodNamesDiffer | rpc.go:123-128 | the FollowUp and Run names of a package differ |
| Dispatch.CallPkg | rpc.go:110-136 | on a resolution error no call is made and the reply is empty, the name is empty and the route comes back; otherwise the route is stamped on the message and the chosen method is called, and its reply and error come back with the package name and route |
| Dispatch.SuccessIgnoresLastRoute | rpc.go:98-127 | on every successful resolution the flag is false, so FollowUp is chosen exactly when context was added or there are no commands |

## Left out

- Networking is not modelled:
  - `rpc.Dial` (rpc.go:26) is replaced by the abstract `dial` result;
  - `RPCClient.Call` (rpc.go:131) by the abstract `call` result;
  - the reply's content is not interpreted.
- `m.GetLastResponse(db)` (rpc.go:88) is a database read, replaced by the `LastLookup` input. The model assumes two things the code here does not show:
  - a failed read leaves the message's last response as it was;
  - a successful read replaces it.
- Logging is left out, except the duplicate-key warnings, which are kept as the ghost `warnings` log. This includes:
  - "registering package", "searching for", "FollowUp" and "calling pkg with";
  - the dial-failure message.
- The unsynchronised global map is treated as one sequential object. Concurrent registrations and lookups are not modelled.
- `strings.ToLower` and `strings.Title` are modelled on ASCII only.
  - Non-ASCII characters are kept as they are.
  - Every non-ASCII character counts as a word character, so `Title` never upper-cases after a non-ASCII space.
- Go map values are pointers. A key that is absent is modelled as a nil value; the registry never stores nil.
- ListenPort: the port is an unbounded integer. Go's wrap-around of `Port + 1` at the largest `int` is not modelled.
- Routing.Search: on a hit the method returns at once instead of breaking out of the labelled loop. The result is the same, because the code empties `shortRoute` before the break (rpc.go:70), so the override at rpc.go:83-85 does nothing.
- Routing.ScanObjects: at rpc.go:73 the code assigns a bare object's entry to `p`. That entry is always overwritten before it is used — by the next pair's lookup or by the command lookup at rpc.go:78 — and only `shortRoute` keeps its effect.
- Routing.FallbackConsumedOnce: consumption is proved only for the message itself.
  - The code clears `m.LastResponse` in memory (rpc.go:103).
  - A later `GetLastResponse` reads the store again.
  - So a second turn sees the same route unless the store was cleared elsewhere. That code is not part of this model.
- Two features of the code are kept as written:
  - The `lastRoute` disjunct of the method choice (rpc.go:123) never takes effect. getPkg returns `true` only together with `ErrMissingPackage` (rpc.go:98), and `callPkg` returns on every error before the choice (rpc.go:114-119). So a successful fallback with commands and no added context calls `Run`; Dispatch.SuccessIgnoresLastRoute proves this.
  - The bare lookups (rpc.go:73, rpc.go:78) use the cut tokens without lowering them, while registration stores only lowered command keys (rpc.go:32, rpc.go:42). A command token with an upper-case letter therefore misses its bare key.
- shared/auth/auth.go, shared/knowledge/knowledge.go and the vendored echo example server are not part of this model.
  - They are SQL, payment, SMS and HTTP plumbing around the core.
  - Their only local logic, a message switch and a keyword scan, only feeds those calls.
