/** Dispatch (callPkg): resolve the message, pick the remote method of the
    resolved package, stamp the route on the message and make the call. */
module Dispatch {
  import opened Strings
  import opened Skills
  import opened Routing

  /** A package's reply; its content is not interpreted here. */
  datatype Reply = Reply(payload: string)

  /** The zero reply callPkg starts from. */
  const EmptyReply: Reply := Reply("")

  /** What the remote package receives of the message. */
  datatype Sent = Sent(commands: seq<string>, objects: seq<string>, route: string, lastResponse: Option<LastResponse>)

  /** The outcome of RPCClient.Call, supplied by the caller of CallPkg. */
  datatype CallResult = CallResult(reply: Reply, err: Option<Error>)

  const FollowUpSuffix: string := ".FollowUp"
  const RunSuffix: string := ".Run"

  /** A follow-up is called for when context was added, when the route came
      from the last response, or when the message has no commands. */
  predicate FollowUpWanted(ctxAdded: bool, lastRoute: bool, cmds: seq<string>)
  {
    ctxAdded || lastRoute || |cmds| == 0
  }

  /** The remote method: the title-cased package name and a suffix; the
      name occupies the first |name| characters and the suffix the rest. */
  function MethodName(name: string, followUp: bool): (r: string)
    ensures |r| > |name|
    ensures r[|name|..] == (if followUp then FollowUpSuffix else RunSuffix)
  {
    Title(name) + (if followUp then FollowUpSuffix else RunSuffix)
  }

  /** The method name splits back into a case variant of the package name
      and the suffix, so the suffix tells FollowUp and Run apart. */
  /** The method name starts with a case variant of the package name. */
  lemma MethodNamePrefix(name: string, followUp: bool)
    ensures Lower(MethodName(name, followUp)[..|name|]) == Lower(name)
  {
    TitleOnlyChangesCase(name);
    assert MethodName(name, followUp)[..|name|] == Title(name);
  }

  /** The suffix tells FollowUp and Run apart. */
  lemma MethodNamesDiffer(name: string)
    ensures MethodName(name, true) != MethodName(name, false)
  {
    assert MethodName(name, true)[|name|..] != MethodName(name, false)[|name|..];
  }

  /** callPkg: on a resolution error no call is made and the error comes back
      with an empty package name; otherwise the route is stamped on the
      message, the chosen method is called, and its reply and error come
      back with the package name and route. */
  method CallPkg(reg: Registry, m: Message, ctxAdded: bool, load: LastLookup, call: (Client, string, Sent) -> CallResult)
    returns (reply: Reply, pname: string, route: string, err: Option<Error>)
    modifies m`lastResponse, m`route
    ensures var r := Resolve(reg.pkgs, m.hasUser, m.commands, m.objects, old(m.lastResponse), load);
      && m.lastResponse == r.lastResponse
      && route == r.route
      && (r.err.Some? ==> reply == EmptyReply && pname == "" && err == r.err && m.route == old(m.route))
      && (r.err.None? ==>
            var e := r.p.value;
            var res := call(e.client, MethodName(e.pkg.config.name, FollowUpWanted(ctxAdded, r.lastRoute, m.commands)),
                            Sent(m.commands, m.objects, r.route, r.lastResponse));
            m.route == r.route && pname == e.pkg.config.name && reply == res.reply && err == res.err)
  {
    ghost var stored := m.lastResponse;
    reply := EmptyReply;
    var pw, lastRoute;
    pw, route, lastRoute, err := GetPkg(reg, m, load);
    if err.Some? {
      pname := if pw.Some? then pw.value.pkg.config.name else "";
      ErrorsCarryNoPackage(reg.pkgs, m.hasUser, m.commands, m.objects, stored, load);
      return;
    }
    var c := MethodName(pw.value.pkg.config.name, FollowUpWanted(ctxAdded, lastRoute, m.commands));
    m.route := route;
    var res := call(pw.value.client, c, Sent(m.commands, m.objects, m.route, m.lastResponse));
    reply := res.reply;
    pname := pw.value.pkg.config.name;
    err := res.err;
  }

  /** On success lastRoute is never set, so the choice of method depends only
      on the added context and on whether there are commands; in particular
      a fallback to the last response with commands and no added context
      calls Run. */
  lemma SuccessIgnoresLastRoute(pkgs: map<string, Entry>, hasUser: bool, cmds: seq<string>, objs: seq<string>,
                                stored: Option<LastResponse>, load: LastLookup, ctxAdded: bool)
    requires Resolve(pkgs, hasUser, cmds, objs, stored, load).err.None?
    ensures FollowUpWanted(ctxAdded, Resolve(pkgs, hasUser, cmds, objs, stored, load).lastRoute, cmds) <==> ctxAdded || cmds == []
  {
  }
}
