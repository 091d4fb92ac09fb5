/** Route resolution (getPkg): the onboarding shortcut for messages without a
    user, the search for the first registered command/object pair, the bare
    command and object keys met on the way, and the one-shot last-response
    fallback. */
module Routing {
  import opened Strings
  import opened Skills

  /** The route recorded by the previous turn. */
  datatype LastResponse = LastResponse(route: string)

  /** The outcome of GetLastResponse, supplied by the caller: the store
      failed, or it answered with the user's last response, if any. */
  datatype LastLookup = LoadFailed(err: Error) | Loaded(resp: Option<LastResponse>)

  /** The fields of an incoming message that routing reads or writes. */
  class Message {
    var hasUser: bool
    var commands: seq<string>
    var objects: seq<string>
    var lastResponse: Option<LastResponse>
    var route: string

    constructor (hasUser: bool, commands: seq<string>, objects: seq<string>, lastResponse: Option<LastResponse>)
      ensures this.hasUser == hasUser && this.commands == commands && this.objects == objects
      ensures this.lastResponse == lastResponse && route == ""
    {
      this.hasUser := hasUser;
      this.commands := commands;
      this.objects := objects;
      this.lastResponse := lastResponse;
      route := "";
    }
  }

  function OrElse(o: Option<string>, d: string): string
  {
    if o.Some? then o.value else d
  }

  /** The route key of a command and an object token, each cut at its first
      apostrophe. */
  function RouteKey(c: string, o: string): (r: string)
    ensures |r| <= |c| + 1 + |o|
  {
    CompoundKey(StripLiteral(c), StripLiteral(o))
  }

  predicate Hits(pkgs: map<string, Entry>, c: string, o: string)
  {
    RouteKey(c, o) in pkgs
  }

  /** The first object whose key with the (already cut) command c is
      registered. */
  function FirstObject(pkgs: map<string, Entry>, c: string, objs: seq<string>): (r: Option<nat>)
    ensures r.Some? ==> r.value < |objs| && CompoundKey(c, StripLiteral(objs[r.value])) in pkgs
  {
    if objs == [] then None
    else if CompoundKey(c, StripLiteral(objs[0])) in pkgs then Some(0)
    else
      var rest := FirstObject(pkgs, c, objs[1..]);
      if rest.Some? then Some(rest.value + 1) else None
  }

  /** FirstObject finds a registered key with none before it, and finds
      nothing only when no key is registered. */
  lemma {:induction false} FirstObjectIsFirst(pkgs: map<string, Entry>, c: string, objs: seq<string>)
    ensures var r := FirstObject(pkgs, c, objs);
      && (r.Some? ==> forall j :: 0 <= j < r.value ==> CompoundKey(c, StripLiteral(objs[j])) !in pkgs)
      && (r.None? ==> forall j :: 0 <= j < |objs| ==> CompoundKey(c, StripLiteral(objs[j])) !in pkgs)
  {
    if objs != [] {
      FirstObjectIsFirst(pkgs, c, objs[1..]);
    }
  }

  /** The first (command, object) pair, commands outermost, whose route key
      is registered. */
  function FirstHit(pkgs: map<string, Entry>, cmds: seq<string>, objs: seq<string>): (r: Option<(nat, nat)>)
    ensures r.Some? ==> r.value.0 < |cmds| && r.value.1 < |objs| && Hits(pkgs, cmds[r.value.0], objs[r.value.1])
  {
    if cmds == [] then None
    else
      var here := FirstObject(pkgs, StripLiteral(cmds[0]), objs);
      if here.Some? then Some((0, here.value))
      else
        var rest := FirstHit(pkgs, cmds[1..], objs);
        if rest.Some? then Some((rest.value.0 + 1, rest.value.1)) else None
  }

  /** FirstHit finds a matching pair with no matching pair before it in
      visiting order, and finds nothing only when no pair matches. */
  lemma {:induction false} FirstHitIsFirst(pkgs: map<string, Entry>, cmds: seq<string>, objs: seq<string>)
    ensures var r := FirstHit(pkgs, cmds, objs);
      && (r.Some? ==> forall i, j :: 0 <= i < |cmds| && 0 <= j < |objs| && (i < r.value.0 || (i == r.value.0 && j < r.value.1))
                        ==> !Hits(pkgs, cmds[i], objs[j]))
      && (r.None? ==> forall i, j :: 0 <= i < |cmds| && 0 <= j < |objs| ==> !Hits(pkgs, cmds[i], objs[j]))
  {
    if cmds != [] {
      FirstObjectIsFirst(pkgs, StripLiteral(cmds[0]), objs);
      FirstHitIsFirst(pkgs, cmds[1..], objs);
      assert forall i :: 0 < i < |cmds| ==> cmds[1..][i - 1] == cmds[i];
    }
  }

  /** The last of the first n tokens, cut at its first apostrophe, that is
      a registered key. */
  function LastRegistered(pkgs: map<string, Entry>, toks: seq<string>, n: nat): (r: Option<string>)
    requires n <= |toks|
    ensures r.Some? ==> r.value in pkgs
  {
    if n == 0 then None
    else
      var t := StripLiteral(toks[n - 1]);
      if t in pkgs then Some(t) else LastRegistered(pkgs, toks, n - 1)
  }

  /** LastRegistered finds a registered token with no registered token after
      it, and finds nothing only when no token is registered. */
  lemma {:induction false} LastRegisteredIsLast(pkgs: map<string, Entry>, toks: seq<string>, n: nat)
    requires n <= |toks|
    ensures LastRegistered(pkgs, toks, n).Some? ==>
      && LastRegistered(pkgs, toks, n).value in pkgs
      && exists k :: 0 <= k < n && LastRegistered(pkgs, toks, n).value == StripLiteral(toks[k])
                     && forall k' :: k < k' < n ==> StripLiteral(toks[k']) !in pkgs
    ensures LastRegistered(pkgs, toks, n).None? ==> forall k :: 0 <= k < n ==> StripLiteral(toks[k]) !in pkgs
  {
    if n > 0 {
      LastRegisteredIsLast(pkgs, toks, n - 1);
      if StripLiteral(toks[n - 1]) in pkgs {
        assert LastRegistered(pkgs, toks, n).value == StripLiteral(toks[n - 1]);
      }
    }
  }

  /** The bare key the search remembers after the first n commands when no
      pair matches: the last bare lookup that succeeded. Each command visits
      every object and then itself, so that is the last command if it is
      registered, else the last registered object, else the last registered
      earlier command; an empty string when there is none or when the last
      success was an empty token. */
  function ShortRoute(pkgs: map<string, Entry>, cmds: seq<string>, objs: seq<string>, n: nat): (r: string)
    requires n <= |cmds|
    ensures |r| > 0 ==> r in pkgs
  {
    if n == 0 then ""
    else
      var c := StripLiteral(cmds[n - 1]);
      if c in pkgs then c
      else if LastRegistered(pkgs, objs, |objs|).Some? then LastRegistered(pkgs, objs, |objs|).value
      else OrElse(LastRegistered(pkgs, cmds, n), "")
  }

  /** The route key of the last pair visited in the first n commands, or
      empty when no pair was. */
  function LastPairKey(cmds: seq<string>, objs: seq<string>, n: nat): (r: string)
    requires n <= |cmds|
    ensures (n == 0 || objs == []) <==> r == ""
  {
    if n == 0 || objs == [] then "" else RouteKey(cmds[n - 1], objs[|objs| - 1])
  }

  /** What the search loop leaves in p and route. With a matching pair: its
      entry and its key. Without one: the entry of the last command's bare
      key (nothing when there are no commands), and the remembered bare key
      as route, or the last pair's key when that is empty. */
  function SearchOutcome(pkgs: map<string, Entry>, cmds: seq<string>, objs: seq<string>): (r: (Option<Entry>, string))
    ensures r.0.Some? ==> r.0.value in pkgs.Values
    ensures cmds == [] ==> r == (None, "")
  {
    var hit := FirstHit(pkgs, cmds, objs);
    if hit.Some? then
      var k := RouteKey(cmds[hit.value.0], objs[hit.value.1]);
      (Some(pkgs[k]), k)
    else
      var short := ShortRoute(pkgs, cmds, objs, |cmds|);
      (if cmds == [] then None else Lookup(pkgs, StripLiteral(cmds[|cmds| - 1])),
       if |short| > 0 then short else LastPairKey(cmds, objs, |cmds|))
  }

  lemma FirstObjectAt(pkgs: map<string, Entry>, c: string, objs: seq<string>, j: nat)
    requires j < |objs| && CompoundKey(c, StripLiteral(objs[j])) in pkgs
    requires forall j' :: 0 <= j' < j ==> CompoundKey(c, StripLiteral(objs[j'])) !in pkgs
    ensures FirstObject(pkgs, c, objs) == Some(j)
  {
    FirstObjectIsFirst(pkgs, c, objs);
  }

  lemma FirstObjectNone(pkgs: map<string, Entry>, c: string, objs: seq<string>)
    requires forall j :: 0 <= j < |objs| ==> CompoundKey(c, StripLiteral(objs[j])) !in pkgs
    ensures FirstObject(pkgs, c, objs) == None
  {
    FirstObjectIsFirst(pkgs, c, objs);
  }

  /** No pair with one of the first n commands matches. */
  predicate NoHitBefore(pkgs: map<string, Entry>, cmds: seq<string>, objs: seq<string>, n: nat)
    requires n <= |cmds|
  {
    forall i, j :: 0 <= i < n && 0 <= j < |objs| ==> !Hits(pkgs, cmds[i], objs[j])
  }

  lemma FirstHitAt(pkgs: map<string, Entry>, cmds: seq<string>, objs: seq<string>, i: nat, j: nat)
    requires i < |cmds| && j < |objs| && Hits(pkgs, cmds[i], objs[j])
    requires NoHitBefore(pkgs, cmds, objs, i)
    requires forall j' :: 0 <= j' < j ==> !Hits(pkgs, cmds[i], objs[j'])
    ensures FirstHit(pkgs, cmds, objs) == Some((i, j))
  {
    FirstHitIsFirst(pkgs, cmds, objs);
  }

  lemma FirstHitNone(pkgs: map<string, Entry>, cmds: seq<string>, objs: seq<string>)
    requires NoHitBefore(pkgs, cmds, objs, |cmds|)
    ensures FirstHit(pkgs, cmds, objs) == None
  {
    FirstHitIsFirst(pkgs, cmds, objs);
  }

  /** Without registered objects the remembered bare key is the last
      registered command. */
  lemma ShortRouteWithoutObjects(pkgs: map<string, Entry>, cmds: seq<string>, objs: seq<string>, n: nat)
    requires n <= |cmds| && LastRegistered(pkgs, objs, |objs|).None?
    ensures ShortRoute(pkgs, cmds, objs, n) == OrElse(LastRegistered(pkgs, cmds, n), "")
  {
  }

  /** The inner loop of getPkg for one (already cut) command c: stop at the
      first registered compound key; otherwise remember every registered bare
      object key. */
  method ScanObjects(pkgs: map<string, Entry>, c: string, objs: seq<string>, p0: Option<Entry>, route0: string, short0: string)
    returns (hit: bool, p: Option<Entry>, route: string, short: string)
    ensures hit <==> FirstObject(pkgs, c, objs).Some?
    ensures hit ==> var k := CompoundKey(c, StripLiteral(objs[FirstObject(pkgs, c, objs).value]));
                    p == Some(pkgs[k]) && route == k && short == ""
    ensures !hit ==> p == (if objs == [] then p0 else Lookup(pkgs, StripLiteral(objs[|objs| - 1])))
    ensures !hit ==> route == (if objs == [] then route0 else CompoundKey(c, StripLiteral(objs[|objs| - 1])))
    ensures !hit ==> short == OrElse(LastRegistered(pkgs, objs, |objs|), short0)
  {
    p, route, short := p0, route0, short0;
    var j := 0;
    while j < |objs|
      invariant 0 <= j <= |objs|
      invariant forall j' :: 0 <= j' < j ==> CompoundKey(c, StripLiteral(objs[j'])) !in pkgs
      invariant p == (if j == 0 then p0 else Lookup(pkgs, StripLiteral(objs[j - 1])))
      invariant route == (if j == 0 then route0 else CompoundKey(c, StripLiteral(objs[j - 1])))
      invariant short == OrElse(LastRegistered(pkgs, objs, j), short0)
    {
      var o := StripLiteral(objs[j]);
      route := CompoundKey(c, o);
      p := Lookup(pkgs, route);
      if p.Some? {
        FirstObjectAt(pkgs, c, objs, j);
        return true, p, route, "";
      }
      p := Lookup(pkgs, o);
      if p.Some? {
        short := o;
      }
      j := j + 1;
    }
    FirstObjectNone(pkgs, c, objs);
    return false, p, route, short;
  }

  lemma NoHitBeforeStep(pkgs: map<string, Entry>, cmds: seq<string>, objs: seq<string>, n: nat)
    requires n < |cmds| && NoHitBefore(pkgs, cmds, objs, n)
    requires forall j :: 0 <= j < |objs| ==> !Hits(pkgs, cmds[n], objs[j])
    ensures NoHitBefore(pkgs, cmds, objs, n + 1)
  {
  }

  /** One round of the labelled loop of getPkg for the command token cmd:
      cut it, scan the objects, and, without a match, look up the command's
      own bare key. */
  method ScanCommand(pkgs: map<string, Entry>, cmd: string, objs: seq<string>, p0: Option<Entry>, route0: string, short0: string)
    returns (hit: bool, p: Option<Entry>, route: string, short: string)
    ensures hit <==> FirstObject(pkgs, StripLiteral(cmd), objs).Some?
    ensures hit ==> var k := RouteKey(cmd, objs[FirstObject(pkgs, StripLiteral(cmd), objs).value]);
                    p == Some(pkgs[k]) && route == k && short == ""
    ensures !hit ==> forall j :: 0 <= j < |objs| ==> !Hits(pkgs, cmd, objs[j])
    ensures !hit ==> p == Lookup(pkgs, StripLiteral(cmd))
    ensures !hit ==> route == (if objs == [] then route0 else RouteKey(cmd, objs[|objs| - 1]))
    ensures !hit ==> short == (if StripLiteral(cmd) in pkgs then StripLiteral(cmd)
                               else OrElse(LastRegistered(pkgs, objs, |objs|), short0))
  {
    var c := StripLiteral(cmd);
    hit, p, route, short := ScanObjects(pkgs, c, objs, p0, route0, short0);
    if hit {
      return;
    }
    FirstObjectIsFirst(pkgs, c, objs);
    p := Lookup(pkgs, c);
    if p.Some? {
      short := c;
    }
  }

  /** The remembered bare key after one more command. */
  lemma ShortRouteStep(pkgs: map<string, Entry>, cmds: seq<string>, objs: seq<string>, i: nat)
    requires i < |cmds|
    ensures ShortRoute(pkgs, cmds, objs, i + 1)
            == (if StripLiteral(cmds[i]) in pkgs then StripLiteral(cmds[i])
                else OrElse(LastRegistered(pkgs, objs, |objs|), ShortRoute(pkgs, cmds, objs, i)))
  {
    if LastRegistered(pkgs, objs, |objs|).None? {
      ShortRouteWithoutObjects(pkgs, cmds, objs, i);
    }
  }

  /** The search loop of getPkg (the labelled loop and the choice between
      the remembered bare key and the last compound key). */
  method Search(pkgs: map<string, Entry>, cmds: seq<string>, objs: seq<string>) returns (p: Option<Entry>, route: string)
    ensures (p, route) == SearchOutcome(pkgs, cmds, objs)
  {
    p, route := None, "";
    var shortRoute := "";
    var i := 0;
    while i < |cmds|
      invariant 0 <= i <= |cmds|
      invariant NoHitBefore(pkgs, cmds, objs, i)
      invariant p == (if i == 0 then None else Lookup(pkgs, StripLiteral(cmds[i - 1])))
      invariant shortRoute == ShortRoute(pkgs, cmds, objs, i)
      invariant route == LastPairKey(cmds, objs, i)
    {
      var hit;
      hit, p, route, shortRoute := ScanCommand(pkgs, cmds[i], objs, p, route, shortRoute);
      if hit {
        FirstObjectIsFirst(pkgs, StripLiteral(cmds[i]), objs);
        FirstHitAt(pkgs, cmds, objs, i, FirstObject(pkgs, StripLiteral(cmds[i]), objs).value);
        return;
      }
      ShortRouteStep(pkgs, cmds, objs, i);
      NoHitBeforeStep(pkgs, cmds, objs, i);
      i := i + 1;
    }
    FirstHitNone(pkgs, cmds, objs);
    if |shortRoute| > 0 {
      route := shortRoute;
    }
  }

  /** What getPkg returns, with the message's last response after the call. */
  datatype Resolution = Resolution(p: Option<Entry>, route: string, lastRoute: bool, err: Option<Error>, lastResponse: Option<LastResponse>)

  /** The key of the package that handles messages without a user. */
  const Onboard: string := "onboard"

  /** The last-response fallback, taken when the search found no package.
      route is the search's route and stored the message's last response
      before the call. */
  function Fallback(pkgs: map<string, Entry>, route: string, stored: Option<LastResponse>, load: LastLookup): (r: Resolution)
    ensures r.err.None? <==> r.p.Some?
    ensures r.p.Some? ==> r.route in pkgs && r.p == Some(pkgs[r.route]) && r.lastResponse == None
    ensures r.lastRoute ==> load.Loaded? && r.err == Some(ErrMissingPackage) && r.lastResponse == load.resp
  {
    if load.LoadFailed? then Resolution(None, route, false, Some(load.err), stored)
    else if load.resp.None? then Resolution(None, route, false, Some(ErrMissingPackage), None)
    else
      var r := load.resp.value.route;
      if r in pkgs then Resolution(Some(pkgs[r]), r, false, None, None)
      else Resolution(None, r, true, Some(ErrMissingPackage), load.resp)
  }

  /** getPkg as a function of the registry, the message and the store. */
  function Resolve(pkgs: map<string, Entry>, hasUser: bool, cmds: seq<string>, objs: seq<string>,
                   stored: Option<LastResponse>, load: LastLookup): (r: Resolution)
    ensures r.p.Some? ==> r.p.value in pkgs.Values
    ensures !hasUser ==> r.route == Onboard
  {
    if !hasUser then
      if Onboard in pkgs then Resolution(Some(pkgs[Onboard]), Onboard, false, None, stored)
      else Resolution(None, Onboard, false, Some(ErrMissingPackage), stored)
    else
      var (p, route) := SearchOutcome(pkgs, cmds, objs);
      if p.Some? then Resolution(p, route, false, None, stored)
      else Fallback(pkgs, route, stored, load)
  }

  /** getPkg. The store lookup GetLastResponse is the parameter load; it
      overwrites the message's last response unless it fails. */
  method GetPkg(reg: Registry, m: Message, load: LastLookup)
    returns (p: Option<Entry>, route: string, lastRoute: bool, err: Option<Error>)
    modifies m`lastResponse
    ensures Resolution(p, route, lastRoute, err, m.lastResponse)
            == Resolve(reg.pkgs, m.hasUser, m.commands, m.objects, old(m.lastResponse), load)
  {
    if !m.hasUser {
      p := Lookup(reg.pkgs, Onboard);
      if p.Some? {
        return p, Onboard, false, None;
      }
      return None, Onboard, false, Some(ErrMissingPackage);
    }
    p, route := Search(reg.pkgs, m.commands, m.objects);
    if p.None? {
      if load.LoadFailed? {
        return p, route, false, Some(load.err);
      }
      m.lastResponse := load.resp;
      if m.lastResponse.None? {
        return p, route, false, Some(ErrMissingPackage);
      }
      route := m.lastResponse.value.route;
      p := Lookup(reg.pkgs, route);
      if p.None? {
        return p, route, true, Some(ErrMissingPackage);
      }
      m.lastResponse := None;
      return p, route, false, None;
    }
    return p, route, false, None;
  }

  /** A message without a user goes to the onboarding package whatever its
      tokens, and fails with ErrMissingPackage when that is not registered. */
  lemma NilUserResolvesOnboard(pkgs: map<string, Entry>, cmds: seq<string>, objs: seq<string>, stored: Option<LastResponse>, load: LastLookup)
    ensures var r := Resolve(pkgs, false, cmds, objs, stored, load);
      && r.route == Onboard && !r.lastRoute && r.lastResponse == stored
      && (Onboard in pkgs ==> r.p == Some(pkgs[Onboard]) && r.err == None)
      && (Onboard !in pkgs ==> r.p == None && r.err == Some(ErrMissingPackage))
    ensures Resolve(pkgs, false, cmds, objs, stored, load) == Resolve(pkgs, false, [], [], stored, load)
  {
  }

  /** The first registered pair in visiting order wins: its key is the route,
      its entry the package, and the last response is left alone. */
  lemma ExactMatchWins(pkgs: map<string, Entry>, cmds: seq<string>, objs: seq<string>, i: nat, j: nat,
                       stored: Option<LastResponse>, load: LastLookup)
    requires i < |cmds| && j < |objs| && Hits(pkgs, cmds[i], objs[j])
    requires forall i', j' :: 0 <= i' < i && 0 <= j' < |objs| ==> !Hits(pkgs, cmds[i'], objs[j'])
    requires forall j' :: 0 <= j' < j ==> !Hits(pkgs, cmds[i], objs[j'])
    ensures var k := RouteKey(cmds[i], objs[j]);
      Resolve(pkgs, true, cmds, objs, stored, load) == Resolution(Some(pkgs[k]), k, false, None, stored)
  {
    FirstHitAt(pkgs, cmds, objs, i, j);
  }

  /** Once a pair matches, no later command is looked at: appending commands
      changes nothing. */
  lemma {:induction false} LaterCommandsIgnored(pkgs: map<string, Entry>, cmds: seq<string>, more: seq<string>, objs: seq<string>,
                                               stored: Option<LastResponse>, load: LastLookup)
    requires FirstHit(pkgs, cmds, objs).Some?
    ensures Resolve(pkgs, true, cmds + more, objs, stored, load) == Resolve(pkgs, true, cmds, objs, stored, load)
  {
    var h := FirstHit(pkgs, cmds, objs).value;
    FirstHitIsFirst(pkgs, cmds, objs);
    var all := cmds + more;
    assert forall i :: 0 <= i < |cmds| ==> all[i] == cmds[i];
    FirstHitAt(pkgs, all, objs, h.0, h.1);
  }

  /** Without a matching pair the package is the entry of the last command's
      bare key (cut, not lowered), or nothing without commands: bare keys met
      earlier can change only the route. */
  lemma NoExactMatchUsesLastCommand(pkgs: map<string, Entry>, cmds: seq<string>, objs: seq<string>)
    requires forall i, j :: 0 <= i < |cmds| && 0 <= j < |objs| ==> !Hits(pkgs, cmds[i], objs[j])
    ensures SearchOutcome(pkgs, cmds, objs).0 == (if cmds == [] then None else Lookup(pkgs, StripLiteral(cmds[|cmds| - 1])))
  {
    FirstHitNone(pkgs, cmds, objs);
  }

  /** When the search finds a package and the last command does not cut to
      the empty token, the route names that package's key: the matching
      pair's key, or, without a match, the last command's own cut token. */
  lemma SearchRouteNamesPackage(pkgs: map<string, Entry>, cmds: seq<string>, objs: seq<string>)
    requires cmds != [] ==> StripLiteral(cmds[|cmds| - 1]) != ""
    requires SearchOutcome(pkgs, cmds, objs).0.Some?
    ensures var (p, route) := SearchOutcome(pkgs, cmds, objs);
      route in pkgs && p == Some(pkgs[route])
    ensures var (p, route) := SearchOutcome(pkgs, cmds, objs);
      FirstHit(pkgs, cmds, objs).None? ==> route == StripLiteral(cmds[|cmds| - 1])
  {
  }

  /** The four outcomes of the last-response fallback. */
  lemma FallbackOutcomes(pkgs: map<string, Entry>, cmds: seq<string>, objs: seq<string>, stored: Option<LastResponse>, load: LastLookup)
    requires SearchOutcome(pkgs, cmds, objs).0.None?
    ensures var r := Resolve(pkgs, true, cmds, objs, stored, load);
      && (load.LoadFailed? ==> r.p == None && r.err == Some(load.err) && !r.lastRoute && r.lastResponse == stored
                               && r.route == SearchOutcome(pkgs, cmds, objs).1)
      && (load == Loaded(None) ==> r.p == None && r.err == Some(ErrMissingPackage) && !r.lastRoute && r.lastResponse == None
                                   && r.route == SearchOutcome(pkgs, cmds, objs).1)
      && (load.Loaded? && load.resp.Some? && load.resp.value.route !in pkgs ==>
            r.p == None && r.err == Some(ErrMissingPackage) && r.lastRoute
            && r.route == load.resp.value.route && r.lastResponse == load.resp)
      && (load.Loaded? && load.resp.Some? && load.resp.value.route in pkgs ==>
            r.p == Some(pkgs[load.resp.value.route]) && r.err == None && !r.lastRoute
            && r.route == load.resp.value.route && r.lastResponse == None)
  {
  }

  /** Every error comes without a package and every success with one; the
      lastRoute flag is raised only together with ErrMissingPackage. */
  lemma ErrorsCarryNoPackage(pkgs: map<string, Entry>, hasUser: bool, cmds: seq<string>, objs: seq<string>,
                             stored: Option<LastResponse>, load: LastLookup)
    ensures var r := Resolve(pkgs, hasUser, cmds, objs, stored, load);
      && (r.err.Some? <==> r.p.None?)
      && (r.lastRoute ==> r.err == Some(ErrMissingPackage))
  {
  }

  /** A successful fallback consumes the last response: resolving the same
      tokens again, with the store answering the cleared value, fails. */
  lemma FallbackConsumedOnce(pkgs: map<string, Entry>, cmds: seq<string>, objs: seq<string>, stored: Option<LastResponse>, lr: LastResponse)
    requires SearchOutcome(pkgs, cmds, objs).0.None?
    requires lr.route in pkgs
    ensures var r1 := Resolve(pkgs, true, cmds, objs, stored, Loaded(Some(lr)));
      && r1.p == Some(pkgs[lr.route]) && r1.lastResponse == None
      && var r2 := Resolve(pkgs, true, cmds, objs, r1.lastResponse, Loaded(r1.lastResponse));
         r2.p == None && r2.err == Some(ErrMissingPackage) && r2.lastResponse == None
  {
  }
}
