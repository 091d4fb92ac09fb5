/** The skill registry: package descriptors, the process-wide map from route
    keys to registered packages, and RegisterPackage. */
module Skills {
  import opened Strings

  datatype Option<T> = None | Some(value: T)

  /** The errors the core returns. External errors (from dialing, from the
      last-response store, from a remote call) are passed through unchanged. */
  datatype Error = ErrMissingPackage | External(cause: string)

  /** A package's configuration: its name, host and control port. */
  datatype Config = Config(name: string, serverAddress: string, port: int)

  /** The command and object tokens a package wants to be notified about. */
  datatype Trigger = Trigger(commands: seq<string>, objects: seq<string>)

  datatype Pkg = Pkg(config: Config, trigger: Trigger)

  /** An open remote-procedure connection, known only by an opaque handle. */
  datatype Client = Client(handle: nat)

  /** The outcome of rpc.Dial, supplied by the caller of Register. */
  datatype DialResult = Dialed(client: Client) | DialFailed(err: Error)

  /** A registry entry: the package and the connection used to reach it. */
  datatype Entry = Entry(pkg: Pkg, client: Client)

  /** The duplicate-key warning: the registering package's name and the key. */
  datatype Warning = Warning(name: string, key: string)

  /** One write into the registry map, in program order. */
  datatype Write = Write(key: string, compound: bool)

  function Lookup(m: map<string, Entry>, k: string): (r: Option<Entry>)
    ensures r.Some? <==> k in m
    ensures r.Some? ==> r.value == m[k]
  {
    if k in m then Some(m[k]) else None
  }

  /** The RPC port is the configured port plus one. */
  function ListenPort(cfg: Config): (r: int)
  {
    cfg.port + 1
  }

  /** The address dialed: the host, a colon and the decimal listen port,
      which reads back as one above the control port. */
  function DialAddress(cfg: Config): (r: string)
    ensures |r| > |cfg.serverAddress| + 1 && r[..|cfg.serverAddress| + 1] == cfg.serverAddress + ":"
    ensures Atoi(r[|cfg.serverAddress| + 1..]) == cfg.port + 1
  {
    var a := cfg.serverAddress + ":" + Itoa(ListenPort(cfg));
    assert a[|cfg.serverAddress| + 1..] == Itoa(cfg.port + 1);
    ItoaRoundTrip(cfg.port + 1);
    a
  }

  /** The compound writes for one (already lower-cased) command. */
  function CompoundWrites(c: string, objs: seq<string>): (r: seq<Write>)
    ensures |r| == |objs|
    ensures forall i :: 0 <= i < |r| ==> r[i] == Write(CompoundKey(c, objs[i]), true)
  {
    if objs == [] then []
    else CompoundWrites(c, objs[..|objs| - 1]) + [Write(CompoundKey(c, objs[|objs| - 1]), true)]
  }

  /** The writes for one command: its compound keys, then its bare key. */
  function CommandWrites(c: string, objs: seq<string>): (r: seq<Write>)
    ensures |r| == |objs| + 1 && r[|objs|] == Write(c, false)
  {
    CompoundWrites(c, objs) + [Write(c, false)]
  }

  /** Every write RegisterPackage performs, in order. */
  function RegistrationWrites(cmds: seq<string>, objs: seq<string>): seq<Write>
  {
    if cmds == [] then []
    else RegistrationWrites(cmds[..|cmds| - 1], objs) + CommandWrites(Lower(cmds[|cmds| - 1]), objs)
  }

  /** The keys written by ws. */
  function KeysOf(ws: seq<Write>): set<string>
  {
    if ws == [] then {} else KeysOf(ws[..|ws| - 1]) + {ws[|ws| - 1].key}
  }

  lemma {:induction false} KeysOfMembers(ws: seq<Write>, k: string)
    ensures k in KeysOf(ws) <==> exists w :: w in ws && w.key == k
  {
    if ws != [] {
      KeysOfMembers(ws[..|ws| - 1], k);
      assert forall w :: w in ws <==> w in ws[..|ws| - 1] || w == ws[|ws| - 1];
    }
  }

  /** What registration changes: the map and the warning log. */
  datatype RegState = RegState(pkgs: map<string, Entry>, log: seq<Warning>)

  /** One write of entry e under w.key by the package called name: a
      compound key that is already present is logged first; the write
      always replaces the old entry. */
  function Perform(st: RegState, w: Write, e: Entry, name: string): RegState
  {
    RegState(st.pkgs[w.key := e],
             if w.compound && w.key in st.pkgs then st.log + [Warning(name, w.key)] else st.log)
  }

  /** The writes ws performed in order. */
  function PerformAll(st: RegState, ws: seq<Write>, e: Entry, name: string): RegState
  {
    if ws == [] then st else Perform(PerformAll(st, ws[..|ws| - 1], e, name), ws[|ws| - 1], e, name)
  }

  lemma PerformSnoc(st: RegState, ws: seq<Write>, w: Write, e: Entry, name: string)
    ensures PerformAll(st, ws + [w], e, name) == Perform(PerformAll(st, ws, e, name), w, e, name)
  {
    assert (ws + [w])[..|ws|] == ws;
  }

  /** The state after the compound writes of command c with objs[..j]. */
  function AfterObjects(st: RegState, c: string, objs: seq<string>, j: nat, e: Entry, name: string): RegState
    requires j <= |objs|
  {
    if j == 0 then st
    else Perform(AfterObjects(st, c, objs, j - 1, e, name), Write(CompoundKey(c, objs[j - 1]), true), e, name)
  }

  /** The state after the writes of the commands cmds[..i]. */
  function AfterCommands(st: RegState, cmds: seq<string>, objs: seq<string>, i: nat, e: Entry, name: string): RegState
    requires i <= |cmds|
  {
    if i == 0 then st
    else
      var c := Lower(cmds[i - 1]);
      Perform(AfterObjects(AfterCommands(st, cmds, objs, i - 1, e, name), c, objs, |objs|, e, name), Write(c, false), e, name)
  }

  lemma {:induction false} PerformAllAppend(st: RegState, a: seq<Write>, b: seq<Write>, e: Entry, name: string)
    ensures PerformAll(st, a + b, e, name) == PerformAll(PerformAll(st, a, e, name), b, e, name)
  {
    if b == [] {
      assert a + b == a;
    } else {
      var n := |b| - 1;
      assert (a + b)[..|a| + n] == a + b[..n];
      PerformAllAppend(st, a, b[..n], e, name);
    }
  }

  lemma {:induction false} AfterObjectsPerformsCompoundWrites(st: RegState, c: string, objs: seq<string>, j: nat, e: Entry, name: string)
    requires j <= |objs|
    ensures AfterObjects(st, c, objs, j, e, name) == PerformAll(st, CompoundWrites(c, objs[..j]), e, name)
  {
    if j > 0 {
      AfterObjectsPerformsCompoundWrites(st, c, objs, j - 1, e, name);
      CompoundWritesStep(c, objs, j - 1);
      PerformSnoc(st, CompoundWrites(c, objs[..j - 1]), Write(CompoundKey(c, objs[j - 1]), true), e, name);
    }
  }

  lemma AfterAllObjects(st: RegState, c: string, objs: seq<string>, e: Entry, name: string)
    ensures AfterObjects(st, c, objs, |objs|, e, name) == PerformAll(st, CompoundWrites(c, objs), e, name)
  {
    AfterObjectsPerformsCompoundWrites(st, c, objs, |objs|, e, name);
    assert objs[..|objs|] == objs;
  }

  lemma CommandStep(st: RegState, done: seq<Write>, c: string, objs: seq<string>, e: Entry, name: string)
    ensures Perform(PerformAll(PerformAll(st, done, e, name), CompoundWrites(c, objs), e, name), Write(c, false), e, name)
      == PerformAll(st, done + CommandWrites(c, objs), e, name)
  {
    var cw := CompoundWrites(c, objs);
    PerformAllAppend(st, done, cw, e, name);
    assert done + CommandWrites(c, objs) == (done + cw) + [Write(c, false)];
    PerformSnoc(st, done + cw, Write(c, false), e, name);
  }

  /** The loop of RegisterPackage performs exactly the writes of
      RegistrationWrites, in order. */
  lemma {:induction false} AfterCommandsPerformsRegistrationWrites(st: RegState, cmds: seq<string>, objs: seq<string>, i: nat, e: Entry, name: string)
    requires i <= |cmds|
    ensures AfterCommands(st, cmds, objs, i, e, name) == PerformAll(st, RegistrationWrites(cmds[..i], objs), e, name)
  {
    if i > 0 {
      var c := Lower(cmds[i - 1]);
      var done := RegistrationWrites(cmds[..i - 1], objs);
      var before := AfterCommands(st, cmds, objs, i - 1, e, name);
      AfterCommandsPerformsRegistrationWrites(st, cmds, objs, i - 1, e, name);
      assert before == PerformAll(st, done, e, name);
      AfterAllObjects(before, c, objs, e, name);
      CommandStep(st, done, c, objs, e, name);
      RegistrationWritesStep(cmds, objs, i - 1);
    }
  }

  /** Registration adds exactly the written keys, maps each of them to the
      new entry (last writer wins), and leaves every other key as it was. */
  lemma {:induction false} PerformAllPkgs(st: RegState, ws: seq<Write>, e: Entry, name: string)
    ensures PerformAll(st, ws, e, name).pkgs.Keys == st.pkgs.Keys + KeysOf(ws)
    ensures forall k :: k in KeysOf(ws) ==> PerformAll(st, ws, e, name).pkgs[k] == e
    ensures forall k :: k in st.pkgs && k !in KeysOf(ws) ==> PerformAll(st, ws, e, name).pkgs[k] == st.pkgs[k]
  {
    if ws != [] {
      PerformAllPkgs(st, ws[..|ws| - 1], e, name);
    }
  }

  /** The warnings the writes ws log when the keys in known are present
      beforehand: one for each compound write whose key is known or was
      written earlier in ws. */
  function Collisions(known: set<string>, ws: seq<Write>, name: string): (r: seq<Warning>)
    ensures |r| <= |ws|
    ensures forall i :: 0 <= i < |r| ==> r[i].name == name
  {
    if ws == [] then []
    else
      var n := |ws| - 1;
      Collisions(known, ws[..n], name)
      + (if ws[n].compound && ws[n].key in known + KeysOf(ws[..n]) then [Warning(name, ws[n].key)] else [])
  }

  /** The log only grows, by the collisions of ws with the keys present
      before; bare command writes never warn. */
  lemma {:induction false} PerformAllLog(st: RegState, ws: seq<Write>, e: Entry, name: string)
    ensures PerformAll(st, ws, e, name).log == st.log + Collisions(st.pkgs.Keys, ws, name)
  {
    if ws != [] {
      var n := |ws| - 1;
      PerformAllLog(st, ws[..n], e, name);
      PerformAllPkgs(st, ws[..n], e, name);
    }
  }

  /** A warning is logged exactly for a compound write whose key was present
      when it was written. */
  lemma {:induction false} CollisionsMembers(known: set<string>, ws: seq<Write>, name: string, x: Warning)
    ensures x in Collisions(known, ws, name) <==>
      exists i :: 0 <= i < |ws| && ws[i].compound && ws[i].key in known + KeysOf(ws[..i]) && x == Warning(name, ws[i].key)
  {
    if ws != [] {
      var n := |ws| - 1;
      var prev := ws[..n];
      CollisionsMembers(known, prev, name, x);
      assert forall i :: 0 <= i < n ==> prev[i] == ws[i] && prev[..i] == ws[..i];
    }
  }

  lemma CompoundWritesStep(c: string, objs: seq<string>, j: nat)
    requires j < |objs|
    ensures CompoundWrites(c, objs[..j + 1]) == CompoundWrites(c, objs[..j]) + [Write(CompoundKey(c, objs[j]), true)]
  {
    assert objs[..j + 1][..j] == objs[..j];
  }

  lemma RegistrationWritesStep(cmds: seq<string>, objs: seq<string>, i: nat)
    requires i < |cmds|
    ensures RegistrationWrites(cmds[..i + 1], objs) == RegistrationWrites(cmds[..i], objs) + CommandWrites(Lower(cmds[i]), objs)
  {
    assert cmds[..i + 1][..i] == cmds[..i];
  }

  lemma {:induction false} CompoundWritesContain(c: string, objs: seq<string>, o: string)
    requires o in objs
    ensures Write(CompoundKey(c, o), true) in CompoundWrites(c, objs)
  {
    if objs[|objs| - 1] != o {
      CompoundWritesContain(c, objs[..|objs| - 1], o);
    }
  }

  lemma {:induction false} CompoundWritesOnly(c: string, objs: seq<string>, w: Write)
    requires w in CompoundWrites(c, objs)
    ensures w.compound && exists o :: o in objs && w.key == CompoundKey(c, o)
  {
    if objs != [] {
      var last := Write(CompoundKey(c, objs[|objs| - 1]), true);
      if w != last {
        CompoundWritesOnly(c, objs[..|objs| - 1], w);
      } else {
        assert objs[|objs| - 1] in objs;
      }
    }
  }

  /** Every trigger pair writes its compound key and every command its bare
      key. */
  lemma {:induction false} RegistrationWritesContain(cmds: seq<string>, objs: seq<string>, c: string)
    requires c in cmds
    ensures Write(Lower(c), false) in RegistrationWrites(cmds, objs)
    ensures forall o :: o in objs ==> Write(CompoundKey(c, o), true) in RegistrationWrites(cmds, objs)
  {
    var prev := cmds[..|cmds| - 1];
    var last := cmds[|cmds| - 1];
    if last != c {
      RegistrationWritesContain(prev, objs, c);
    } else {
      forall o | o in objs
        ensures Write(CompoundKey(c, o), true) in RegistrationWrites(cmds, objs)
      {
        CompoundWritesContain(Lower(c), objs, o);
        RegistrationKeyIsCompoundKey(c, o);
      }
    }
  }

  /** Nothing else is written: each write is a trigger pair's compound key
      or a command's bare key. */
  lemma {:induction false} RegistrationWritesOnly(cmds: seq<string>, objs: seq<string>, w: Write)
    requires w in RegistrationWrites(cmds, objs)
    ensures w.compound ==> exists c, o :: c in cmds && o in objs && w.key == CompoundKey(c, o)
    ensures !w.compound ==> exists c :: c in cmds && w.key == Lower(c)
  {
    var prev := cmds[..|cmds| - 1];
    var last := cmds[|cmds| - 1];
    assert last in cmds;
    if w in RegistrationWrites(prev, objs) {
      RegistrationWritesOnly(prev, objs, w);
      assert forall c :: c in prev ==> c in cmds;
    } else if w in CompoundWrites(Lower(last), objs) {
      CompoundWritesOnly(Lower(last), objs, w);
      var o :| o in objs && w.key == CompoundKey(Lower(last), o);
      RegistrationKeyIsCompoundKey(last, o);
    } else {
      assert w == Write(Lower(last), false);
    }
  }

  /** The keys a registration touches: the compound key of every trigger pair
      and the bare key of every command, and no other. */
  lemma RegistrationKeys(cmds: seq<string>, objs: seq<string>, k: string)
    ensures k in KeysOf(RegistrationWrites(cmds, objs)) <==>
      (exists c, o :: c in cmds && o in objs && k == CompoundKey(c, o)) ||
      (exists c :: c in cmds && k == Lower(c))
  {
    var ws := RegistrationWrites(cmds, objs);
    KeysOfMembers(ws, k);
    if k in KeysOf(ws) {
      var w :| w in ws && w.key == k;
      RegistrationWritesOnly(cmds, objs, w);
    }
    if exists c, o :: c in cmds && o in objs && k == CompoundKey(c, o) {
      var c, o :| c in cmds && o in objs && k == CompoundKey(c, o);
      RegistrationWritesContain(cmds, objs, c);
      assert Write(k, true) in ws;
    }
    if exists c :: c in cmds && k == Lower(c) {
      var c :| c in cmds && k == Lower(c);
      RegistrationWritesContain(cmds, objs, c);
      assert Write(k, false) in ws;
    }
  }

  /** A package with no commands registers nothing, whatever its objects. */
  lemma NoCommandsRegistersNothing(st: RegState, objs: seq<string>, e: Entry, name: string)
    ensures PerformAll(st, RegistrationWrites([], objs), e, name) == st
  {
  }

  /** Two packages sharing a trigger pair: the second registration replaces
      the first one's entry under the shared key and logs a warning for it. */
  lemma SecondRegistrationWins(st: RegState, p1: Pkg, e1: Entry, p2: Pkg, e2: Entry, c1: string, o1: string, c2: string, o2: string)
    requires c1 in p1.trigger.commands && o1 in p1.trigger.objects
    requires c2 in p2.trigger.commands && o2 in p2.trigger.objects
    requires CompoundKey(c1, o1) == CompoundKey(c2, o2)
    ensures var st1 := PerformAll(st, RegistrationWrites(p1.trigger.commands, p1.trigger.objects), e1, p1.config.name);
            var st2 := PerformAll(st1, RegistrationWrites(p2.trigger.commands, p2.trigger.objects), e2, p2.config.name);
            && CompoundKey(c2, o2) in st2.pkgs
            && st2.pkgs[CompoundKey(c2, o2)] == e2
            && |st1.log| <= |st2.log|
            && Warning(p2.config.name, CompoundKey(c2, o2)) in st2.log[|st1.log|..]
  {
    var k := CompoundKey(c2, o2);
    var ws1 := RegistrationWrites(p1.trigger.commands, p1.trigger.objects);
    var ws2 := RegistrationWrites(p2.trigger.commands, p2.trigger.objects);
    var st1 := PerformAll(st, ws1, e1, p1.config.name);
    RegistrationWritesContain(p1.trigger.commands, p1.trigger.objects, c1);
    RegistrationWritesContain(p2.trigger.commands, p2.trigger.objects, c2);
    assert Write(k, true) in ws1;
    KeysOfMembers(ws1, k);
    KeysOfMembers(ws2, k);
    PerformAllPkgs(st, ws1, e1, p1.config.name);
    PerformAllPkgs(st1, ws2, e2, p2.config.name);
    assert Write(k, true) in ws2;
    var i :| 0 <= i < |ws2| && ws2[i] == Write(k, true);
    PerformAllLog(st1, ws2, e2, p2.config.name);
    CollisionsMembers(st1.pkgs.Keys, ws2, p2.config.name, Warning(p2.config.name, k));
  }

  /** The process-wide registry (regPkgs) with the warnings it has logged. */
  class Registry {
    var pkgs: map<string, Entry>
    ghost var warnings: seq<Warning>

    constructor ()
      ensures pkgs == map[] && warnings == []
    {
      pkgs := map[];
      warnings := [];
    }

    /** RegisterPackage: dial the package's listen port; on failure return the
        error and change nothing, otherwise perform every trigger write. */
    method Register(p: Pkg, dial: string -> DialResult) returns (err: Option<Error>)
      modifies this
      ensures dial(DialAddress(p.config)).DialFailed? ==>
        err == Some(dial(DialAddress(p.config)).err) && pkgs == old(pkgs) && warnings == old(warnings)
      ensures dial(DialAddress(p.config)).Dialed? ==>
        && err == None
        && RegState(pkgs, warnings) ==
           PerformAll(RegState(old(pkgs), old(warnings)), RegistrationWrites(p.trigger.commands, p.trigger.objects),
                      Entry(p, dial(DialAddress(p.config)).client), p.config.name)
    {
      var cl := dial(DialAddress(p.config));
      if cl.DialFailed? {
        return Some(cl.err);
      }
      var entry := Entry(p, cl.client);
      var name := p.config.name;
      var cmds, objs := p.trigger.commands, p.trigger.objects;
      ghost var st0 := RegState(pkgs, warnings);
      var i := 0;
      while i < |cmds|
        invariant 0 <= i <= |cmds|
        invariant RegState(pkgs, warnings) == AfterCommands(st0, cmds, objs, i, entry, name)
      {
        var c := Lower(cmds[i]);
        WriteObjects(c, objs, entry, name);
        pkgs := pkgs[c := entry];
        i := i + 1;
      }
      AfterCommandsPerformsRegistrationWrites(st0, cmds, objs, i, entry, name);
      assert cmds[..i] == cmds;
      return None;
    }

    /** The inner loop of RegisterPackage: the compound key of the lowered
        command c with every object. */
    method WriteObjects(c: string, objs: seq<string>, entry: Entry, name: string)
      modifies this
      ensures RegState(pkgs, warnings) == AfterObjects(old(RegState(pkgs, warnings)), c, objs, |objs|, entry, name)
    {
      ghost var st1 := RegState(pkgs, warnings);
      var j := 0;
      while j < |objs|
        invariant 0 <= j <= |objs|
        invariant RegState(pkgs, warnings) == AfterObjects(st1, c, objs, j, entry, name)
      {
        var s := CompoundKey(c, objs[j]);
        if s in pkgs {
          warnings := warnings + [Warning(name, s)];
        }
        pkgs := pkgs[s := entry];
        j := j + 1;
      }
    }
  }
}
