/** Resolving a task and the hosts of a target from a loaded playbook and the
    command line overrides it was loaded with. */
module Playbook {
  import opened Wrappers
  import opened Text
  import opened Config
  import opened Inventory

  // ---------------------------------------------------------------------
  // Tasks

  /** The overrides of `env` whose keys are in `keys`. */
  function Restrict(env: map<string, string>, keys: set<string>): (r: map<string, string>)
    ensures r.Keys == env.Keys * keys
    ensures forall k :: k in r ==> r[k] == env[k]
  {
    map k | k in env.Keys && k in keys :: env[k]
  }

  /** A command with `env` laid over its own environment. Only script
      commands take environment overrides; every other command is returned
      as it was. */
  function WithEnv(c: Cmd, env: map<string, string>): (r: Cmd)
    ensures c.script == "" ==> r == c
    ensures r.(environment := c.environment) == c
    ensures c.script != "" ==> r.environment.Keys == c.environment.Keys + env.Keys
    ensures c.script != "" ==> forall k :: k in env ==> r.environment[k] == env[k]
    ensures forall k :: k in c.environment && k !in env ==> r.environment[k] == c.environment[k]
  {
    if c.script == "" then c else c.(environment := c.environment + env)
  }

  /** The user a resolved task runs as: the override user, else the task's,
      else the playbook's. */
  function TaskUser(p: PlayBook, t: Task): (u: string)
    ensures p.overrides.user != "" ==> u == p.overrides.user
    ensures p.overrides.user == "" && t.user != "" ==> u == t.user
    ensures p.overrides.user == "" && t.user == "" ==> u == p.user
  {
    if p.overrides.user != "" then p.overrides.user
    else if t.user != "" then t.user
    else p.user
  }

  /** What `Task(name)` returns: a copy of the named task carrying its name,
      the resolved user and the override environment in every script
      command; the playbook's own task is not altered. */
  function TaskSpec(p: PlayBook, name: string): (r: Result<Task>)
    ensures r.Ok? <==> name in p.tasks
    ensures r.Err? ==> r.error == "task " + name + " not found"
    ensures r.Ok? ==> var t := p.tasks[name];
      && r.value.name == name
      && r.value.user == TaskUser(p, t)
      && r.value.sshKey == t.sshKey && r.value.onError == t.onError
      && |r.value.commands| == |t.commands|
      && forall i :: 0 <= i < |t.commands| ==> r.value.commands[i] == WithEnv(t.commands[i], p.overrides.environment)
  {
    if name !in p.tasks then Err("task " + name + " not found")
    else
      var t := p.tasks[name];
      var env := p.overrides.environment;
      Ok(t.(name := name, user := TaskUser(p, t),
            commands := seq(|t.commands|, i requires 0 <= i < |t.commands| => WithEnv(t.commands[i], env))))
  }

  /** Every override key reaches every script command with the override's
      value, keys the overrides do not name keep the command's own value,
      and no other key appears; commands without a script are untouched. */
  lemma TaskEnvironment(p: PlayBook, name: string, i: int)
    requires name in p.tasks && 0 <= i < |p.tasks[name].commands|
    ensures var c := p.tasks[name].commands[i];
            var rc := TaskSpec(p, name).value.commands[i];
            var env := p.overrides.environment;
            && (c.script == "" ==> rc == c)
            && (c.script != "" ==> rc.environment.Keys == c.environment.Keys + env.Keys)
            && (c.script != "" ==> forall k :: k in env ==> rc.environment[k] == env[k])
            && (forall k :: k in c.environment && k !in env ==> rc.environment[k] == c.environment[k])
            && rc.name == c.name && rc.script == c.script && rc.options == c.options
  {
    var rc := TaskSpec(p, name).value.commands[i];
    assert rc == WithEnv(p.tasks[name].commands[i], p.overrides.environment);
  }

  /** With no override environment every command comes back as written. */
  lemma NoEnvOverridesKeepCommands(p: PlayBook, name: string)
    requires name in p.tasks && p.overrides.environment == map[]
    ensures TaskSpec(p, name).value.commands == p.tasks[name].commands
  {
    var cs := p.tasks[name].commands;
    var rs := TaskSpec(p, name).value.commands;
    forall i | 0 <= i < |cs| ensures rs[i] == cs[i] {
      assert cs[i].environment + map[] == cs[i].environment;
    }
  }

  /** `PlayBook.Task`: looks the task up, copies it, fills in its name and
      user and writes every override variable into the environment of every
      script command, one variable at a time in whatever order the map
      yields them. */
  method ResolveTask(p: PlayBook, name: string) returns (r: Result<Task>)
    ensures r == TaskSpec(p, name)
  {
    if name !in p.tasks {
      return Err("task " + name + " not found");
    }
    var t := p.tasks[name];
    var res := t.(name := name);
    if res.user == "" {
      res := res.(user := p.user);
    }
    if p.overrides.user != "" {
      res := res.(user := p.overrides.user);
    }
    var env := p.overrides.environment;
    var cmds := res.commands;
    var pending := env.Keys;
    var done: set<string> := {};
    EnvNothing(cmds, env);
    while pending != {}
      invariant pending + done == env.Keys && pending !! done
      invariant |cmds| == |t.commands|
      invariant forall j :: 0 <= j < |cmds| ==> cmds[j] == WithEnv(t.commands[j], Restrict(env, done))
      decreases |pending|
    {
      var k :| k in pending;
      var next := SetInScripts(cmds, k, env[k]);
      forall j | 0 <= j < |cmds|
        ensures next[j] == WithEnv(t.commands[j], Restrict(env, done + {k}))
      {
        OneMoreVariable(t.commands[j], env, done, k);
      }
      cmds := next;
      pending := pending - {k};
      done := done + {k};
    }
    assert Restrict(env, done) == env;
    assert cmds == seq(|t.commands|, i requires 0 <= i < |t.commands| => WithEnv(t.commands[i], env));
    res := res.(commands := cmds);
    r := Ok(res);
  }

  /** The inner loop of the override: sets variable `k` to `v` in every
      script command and leaves the other commands alone. */
  method SetInScripts(cmds: seq<Cmd>, k: string, v: string) returns (out: seq<Cmd>)
    ensures |out| == |cmds|
    ensures forall j :: 0 <= j < |cmds| ==> out[j] == WithEnv(cmds[j], map[k := v])
  {
    out := cmds;
    var j := 0;
    while j < |out|
      invariant 0 <= j <= |out| == |cmds|
      invariant forall i :: 0 <= i < j ==> out[i] == WithEnv(cmds[i], map[k := v])
      invariant forall i :: j <= i < |out| ==> out[i] == cmds[i]
    {
      if out[j].script != "" {
        assert out[j].environment[k := v] == out[j].environment + map[k := v];
        out := out[j := out[j].(environment := out[j].environment[k := v])];
      }
      j := j + 1;
    }
  }

  /** Before any variable is written, every command is its own resolution
      against no variables. */
  lemma EnvNothing(cs: seq<Cmd>, env: map<string, string>)
    ensures forall j :: 0 <= j < |cs| ==> cs[j] == WithEnv(cs[j], Restrict(env, {}))
  {
    assert Restrict(env, {}) == map[];
    forall j | 0 <= j < |cs| ensures cs[j] == WithEnv(cs[j], Restrict(env, {})) {
      assert cs[j].environment + map[] == cs[j].environment;
    }
  }

  /** Writing one more override variable into a resolved command. */
  lemma OneMoreVariable(c: Cmd, env: map<string, string>, done: set<string>, k: string)
    requires k in env
    ensures WithEnv(WithEnv(c, Restrict(env, done)), map[k := env[k]]) == WithEnv(c, Restrict(env, done + {k}))
  {
    if c.script != "" {
      assert c.environment + Restrict(env, done) + map[k := env[k]] == c.environment + Restrict(env, done + {k});
    }
  }

  // ---------------------------------------------------------------------
  // Target hosts

  /** An HTTP GET of an inventory URL: a transport failure, or a response. */
  datatype HttpReply = HttpFailed(err: string) | Response(status: int, statusText: string, body: string)

  /** Everything `TargetHosts` learns from outside the playbook: whether a
      name is an IP address, the contents of a file and the reply to a GET. */
  datatype Sources = Sources(
    parseIP: string -> bool,
    readFile: string -> Result<string>,
    fetchURL: string -> HttpReply)

  /** An inventory text parsed for the accepted groups, as `parseInventory`
      does it. */
  function InventoryHosts(text: string, groups: seq<string>, defaultUser: string): Result<seq<Destination>> {
    ParseFrom(Split(text, '\n'), groups, defaultUser, "all")
  }

  /** An inventory read from a file; both failures name the file. */
  function FromFile(src: Sources, p: PlayBook, location: string, groups: seq<string>): (r: Result<seq<Destination>>)
    ensures src.readFile(location).Err? ==> r == Err("can't open inventory file " + location + ": " + src.readFile(location).error)
    ensures src.readFile(location).Ok? ==>
              var parsed := InventoryHosts(src.readFile(location).value, groups, p.user);
              && (parsed.Ok? ==> r == parsed)
              && (parsed.Err? ==> r == Err("can't parse inventory file " + location + ": " + parsed.error))
  {
    match src.readFile(location)
    case Err(e) => Err("can't open inventory file " + location + ": " + e)
    case Ok(text) =>
      match InventoryHosts(text, groups, p.user)
      case Err(e) => Err("can't parse inventory file " + location + ": " + e)
      case Ok(ds) => Ok(ds)
  }

  /** An inventory fetched over HTTP; anything but status 200 is an error. */
  function FromURL(src: Sources, p: PlayBook, url: string, groups: seq<string>): (r: Result<seq<Destination>>)
    ensures src.fetchURL(url).HttpFailed? ==> r == Err("can't get inventory from http " + url + ": " + src.fetchURL(url).err)
    ensures src.fetchURL(url).Response? && src.fetchURL(url).status != 200 ==>
              r == Err("can't get inventory from http " + url + ", status: " + src.fetchURL(url).statusText)
    ensures src.fetchURL(url).Response? && src.fetchURL(url).status == 200 ==>
              var parsed := InventoryHosts(src.fetchURL(url).body, groups, p.user);
              && (parsed.Ok? ==> r == parsed)
              && (parsed.Err? ==> r == Err("can't parse inventory from http " + url + ": " + parsed.error))
  {
    match src.fetchURL(url)
    case HttpFailed(e) => Err("can't get inventory from http " + url + ": " + e)
    case Response(status, statusText, body) =>
      if status != 200 then Err("can't get inventory from http " + url + ", status: " + statusText)
      else
        match InventoryHosts(body, groups, p.user)
        case Err(e) => Err("can't parse inventory from http " + url + ": " + e)
        case Ok(ds) => Ok(ds)
  }

  /** One `host[:port]` given on the command line or as a bare target name:
      the first colon-separated field is the host, the second the port. */
  function HostPort(s: string, user: string): (r: Result<Destination>)
    ensures ':' !in s ==> r == Ok(Destination("", s, DefaultPort, user))
    ensures r.Ok? ==> r.value.user == user && r.value.name == "" && ':' !in r.value.host
  {
    var elems := Split(s, ':');
    if |elems| == 1 then Ok(Destination("", elems[0], DefaultPort, user))
    else
      match Atoi(elems[1])
      case Err(e) => Err("can't parse port " + elems[1] + ": " + e)
      case Ok(port) => Ok(Destination("", elems[0], port, user))
  }

  /** With a colon, the host is the first colon field and the port the value
      of the second; a second field `strconv.Atoi` rejects is the only error,
      reported with `Atoi`'s message. */
  lemma HostPortFields(s: string, user: string)
    ensures ':' in s ==>
              var f := Split(s, ':');
              |f| > 1
              && (Atoi(f[1]).Err? ==> HostPort(s, user) == Err("can't parse port " + f[1] + ": " + Atoi(f[1]).error))
              && (Atoi(f[1]).Ok? ==> HostPort(s, user) == Ok(Destination("", f[0], Atoi(f[1]).value, user)))
    ensures HostPort(s, user).Err? <==> ':' in s && Atoi(Split(s, ':')[1]).Err?
  {
  }

  /** Every `host[:port]` in order; the first bad port is the result. */
  function HostPorts(hs: seq<string>, user: string): (r: Result<seq<Destination>>)
    ensures r.Ok? ==> |r.value| == |hs|
  {
    if |hs| == 0 then Ok([])
    else
      match HostPort(hs[0], user)
      case Err(e) => Err(e)
      case Ok(d) => Prepend([d], HostPorts(hs[1..], user))
  }

  /** A host written in a target: port 0 means 22 and an empty user the
      default user. */
  function Completed(h: Destination, user: string): (d: Destination)
    ensures d.name == h.name && d.host == h.host
    ensures d.port == (if h.port == 0 then DefaultPort else h.port) && d.port != 0
    ensures d.user == (if h.user == "" then user else h.user)
    ensures d.user != "" || user == ""
  {
    h.(port := if h.port == 0 then DefaultPort else h.port,
       user := if h.user == "" then user else h.user)
  }

  /** Every host of a target completed. */
  function CompletedAll(hs: seq<Destination>, user: string): (ds: seq<Destination>)
    ensures |ds| == |hs|
    ensures forall j :: 0 <= j < |hs| ==> ds[j] == Completed(hs[j], user)
  {
    seq(|hs|, j requires 0 <= j < |hs| => Completed(hs[j], user))
  }

  /** Whether a name that is not a target can stand for a single host: an
      IP address, anything with a dot, or anything starting `localhost`. */
  predicate IsHostName(src: Sources, name: string) {
    src.parseIP(name) || '.' in name || HasPrefix(name, "localhost")
  }

  /** What `TargetHosts(name)` returns, source by source in falling order
      of precedence: hosts given on the command line, an inventory file given
      on the command line, an inventory URL given on the command line, the
      target named `name` (its hosts, else its inventory file, else its
      inventory URL), and finally `name` itself read as a host. */
  function TargetSpec(p: PlayBook, name: string, src: Sources): Result<seq<Destination>> {
    var user := DefaultUser(p);
    var o := p.overrides;
    if |o.targetHosts| > 0 then HostPorts(o.targetHosts, user)
    else if o.inventoryFile != "" then FromFile(src, p, o.inventoryFile, [])
    else if o.inventoryURL != "" then FromURL(src, p, o.inventoryURL, [])
    else if name !in p.targets then
      if !IsHostName(src, name) then Err("target " + name + " not found")
      else
        match HostPort(name, user)
        case Err(e) => Err(e)
        case Ok(d) => Ok([d])
    else
      var t := p.targets[name];
      if t.hosts.Some? && |t.hosts.value| > 0 then
        Ok(CompletedAll(t.hosts.value, user))
      else if t.inventoryFile.location != "" then FromFile(src, p, t.inventoryFile.location, t.inventoryFile.groups)
      else if t.inventoryURL.location != "" then FromURL(src, p, t.inventoryURL.location, t.inventoryFile.groups)
      else if t.hosts.None? then Err("target " + name + " has no hosts")
      else Ok([])
  }

  /** Hosts given on the command line: the list parses exactly when every
      entry does, and then gives one destination per entry, in order. */
  lemma {:induction false} HostPortsAll(hs: seq<string>, user: string)
    ensures HostPorts(hs, user).Ok? <==> forall i :: 0 <= i < |hs| ==> HostPort(hs[i], user).Ok?
    ensures HostPorts(hs, user).Ok? ==>
              |HostPorts(hs, user).value| == |hs|
              && forall i :: 0 <= i < |hs| ==> Ok(HostPorts(hs, user).value[i]) == HostPort(hs[i], user)
  {
    if |hs| > 0 {
      HostPortsAll(hs[1..], user);
      if HostPort(hs[0], user).Ok? {
        forall i | 0 < i < |hs| ensures hs[i] == hs[1..][i - 1] { }
      }
    }
  }

  /** A host written as `host:port` reads back as that host and port. */
  lemma HostPortRoundTrip(host: string, port: string, user: string)
    requires ':' !in host && |port| > 0 && AllDigits(port) && DigitsValue(port) <= MaxInt
    ensures HostPort(host + ":" + port, user) == Ok(Destination("", host, DigitsValue(port), user))
  {
    DigitsHaveNoSeparators(port);
    assert host + ":" + port == host + [':'] + port;
    SplitFirst(host, ':', port);
  }

  /** A playbook loaded without any override. */
  predicate NoOverrides(p: PlayBook) {
    p.overrides.targetHosts == [] && p.overrides.inventoryFile == "" && p.overrides.inventoryURL == ""
  }

  /** Hosts given on the command line take precedence over everything else:
      neither the name asked for nor the playbook's targets matter. */
  lemma CommandLineHostsWin(p: PlayBook, name: string, src: Sources, otherName: string, otherTargets: map<string, Target>)
    requires |p.overrides.targetHosts| > 0
    ensures TargetSpec(p, name, src) == HostPorts(p.overrides.targetHosts, DefaultUser(p))
    ensures TargetSpec(p, name, src) == TargetSpec(p.(targets := otherTargets), otherName, src)
  {
  }

  /** An inventory file given on the command line comes next: it is read
      with no group filter, whatever target was asked for. */
  lemma CommandLineFileWins(p: PlayBook, name: string, src: Sources)
    requires p.overrides.targetHosts == [] && p.overrides.inventoryFile != ""
    ensures TargetSpec(p, name, src) == FromFile(src, p, p.overrides.inventoryFile, [])
  {
  }

  /** An inventory URL given on the command line comes third: it is read
      with no group filter, whatever target was asked for. */
  lemma CommandLineURLWins(p: PlayBook, name: string, src: Sources)
    requires p.overrides.targetHosts == [] && p.overrides.inventoryFile == ""
    requires p.overrides.inventoryURL != ""
    ensures TargetSpec(p, name, src) == FromURL(src, p, p.overrides.inventoryURL, [])
  {
  }

  /** A target's own host list, when non-empty, is used with every host
      given a port and the default user. */
  lemma TargetHostsCompleted(p: PlayBook, name: string, src: Sources)
    requires NoOverrides(p) && name in p.targets
    requires p.targets[name].hosts.Some? && |p.targets[name].hosts.value| > 0
    ensures var hs := p.targets[name].hosts.value;
            var r := TargetSpec(p, name, src);
            r.Ok? && |r.value| == |hs|
            && forall i :: 0 <= i < |hs| ==>
                 r.value[i].name == hs[i].name && r.value[i].host == hs[i].host
                 && r.value[i].port == (if hs[i].port == 0 then DefaultPort else hs[i].port)
                 && (hs[i].user != "" ==> r.value[i].user == hs[i].user)
                 && (hs[i].user == "" ==> r.value[i].user == DefaultUser(p))
  {
  }

  /** A target without hosts of its own but with an inventory file reads
      that file, filtered by the file's groups; its URL is not consulted. */
  lemma TargetFileWins(p: PlayBook, name: string, src: Sources)
    requires NoOverrides(p) && name in p.targets
    requires var t := p.targets[name];
             (t.hosts.None? || |t.hosts.value| == 0) && t.inventoryFile.location != ""
    ensures var t := p.targets[name];
            TargetSpec(p, name, src) == FromFile(src, p, t.inventoryFile.location, t.inventoryFile.groups)
  {
  }

  /** A target with an inventory URL but no file filters the URL's hosts by
      the groups given for the inventory file, not those given for the URL. */
  lemma URLInventoryFilteredByFileGroups(p: PlayBook, name: string, src: Sources)
    requires NoOverrides(p) && name in p.targets
    requires var t := p.targets[name];
             (t.hosts.None? || |t.hosts.value| == 0) && t.inventoryFile.location == "" && t.inventoryURL.location != ""
    ensures var t := p.targets[name];
            TargetSpec(p, name, src) == FromURL(src, p, t.inventoryURL.location, t.inventoryFile.groups)
  {
  }

  /** A target whose host list is missing altogether is an error, while an
      explicitly empty list gives no hosts. */
  lemma MissingVersusEmptyHosts(p: PlayBook, name: string, src: Sources)
    requires NoOverrides(p) && name in p.targets
    requires p.targets[name].inventoryFile.location == "" && p.targets[name].inventoryURL.location == ""
    ensures p.targets[name].hosts.None? ==> TargetSpec(p, name, src) == Err("target " + name + " has no hosts")
    ensures p.targets[name].hosts == Some([]) ==> TargetSpec(p, name, src) == Ok([])
  {
  }

  /** A name that is not a target but reads as a host name (an IP address,
      a dotted name or a `localhost` name) is taken as one host, with the
      port after its colon. */
  lemma BareHostWithPort(p: PlayBook, src: Sources, host: string, port: string)
    requires NoOverrides(p) && host + ":" + port !in p.targets
    requires IsHostName(src, host + ":" + port) && ':' !in host
    requires |port| > 0 && AllDigits(port) && DigitsValue(port) <= MaxInt
    ensures TargetSpec(p, host + ":" + port, src) == Ok([Destination("", host, DigitsValue(port), DefaultUser(p))])
  {
    HostPortRoundTrip(host, port, DefaultUser(p));
  }

  /** Without a colon such a bare host gets port 22. */
  lemma BareHostDefaultPort(p: PlayBook, src: Sources, host: string)
    requires NoOverrides(p) && host !in p.targets && IsHostName(src, host) && ':' !in host
    ensures TargetSpec(p, host, src) == Ok([Destination("", host, DefaultPort, DefaultUser(p))])
  {
  }

  /** A name that is neither a target nor looks like a host is an error. */
  lemma UnknownTarget(p: PlayBook, name: string, src: Sources)
    requires NoOverrides(p) && name !in p.targets
    requires !src.parseIP(name) && '.' !in name && !HasPrefix(name, "localhost")
    ensures TargetSpec(p, name, src) == Err("target " + name + " not found")
  {
  }

  /** An IPv6 address with `::` given as a bare target cannot be used: it is
      split on its colons and the empty piece between the first two is read
      as the port. */
  lemma IPv6BareHostRejected(p: PlayBook, src: Sources, a: string, b: string)
    requires NoOverrides(p) && ':' !in a
    requires a + "::" + b !in p.targets && src.parseIP(a + "::" + b)
    ensures TargetSpec(p, a + "::" + b, src) == Err("can't parse port : " + AtoiError("", "invalid syntax"))
  {
    EmptyPortField(a, b, DefaultUser(p));
  }

  /** `host::rest` has an empty second colon field, which is no number. */
  lemma EmptyPortField(a: string, b: string, user: string)
    requires ':' !in a
    ensures HostPort(a + "::" + b, user) == Err("can't parse port : " + AtoiError("", "invalid syntax"))
  {
    var s := a + "::" + b;
    EmptySecondField(a, b, s);
    var e := AtoiError("", "invalid syntax");
    assert Atoi("") == Err(e);
    assert HostPort(s, user) == Err("can't parse port " + "" + ": " + e);
    assert "can't parse port " + "" + ": " == "can't parse port : ";
  }

  lemma EmptySecondField(a: string, b: string, s: string)
    requires ':' !in a && s == a + "::" + b
    ensures |Split(s, ':')| > 1 && Split(s, ':')[1] == ""
  {
    var rest := [] + [':'] + b;
    assert s == a + [':'] + rest;
    SplitFirst(a, ':', rest);
    SplitFirst([], ':', b);
  }

  /** A one-line inventory naming a plain host, with no port, user, comment
      or header. */
  predicate PlainHost(host: string) {
    host != [] && !IsSpace(host[0]) && !IsSpace(host[|host| - 1])
    && host[0] != '#' && host[0] != '['
    && ' ' !in host && ':' !in host && '\n' !in host
  }

  /** Hosts of an inventory read from a file that name no user get the
      playbook's user, even when the command line overrides the user. */
  lemma InventoryIgnoresUserOverride(p: PlayBook, name: string, src: Sources, host: string)
    requires p.overrides.targetHosts == [] && p.overrides.inventoryFile != ""
    requires src.readFile(p.overrides.inventoryFile) == Ok(host) && PlainHost(host)
    ensures TargetSpec(p, name, src) == Ok([Destination("", host, DefaultPort, p.user)])
  {
    SingleHostInventory(host, p.user);
  }

  /** A plain host on a line of its own is one destination on port 22 with
      the default user. */
  lemma SingleHostInventory(host: string, user: string)
    requires PlainHost(host)
    ensures InventoryHosts(host, [], user) == Ok([Destination("", host, DefaultPort, user)])
  {
    TrimSpaceKeeps(host);
    assert host[..1] == [host[0]];
    assert !IsIgnored(host) && !IsHeader(host);
    var d := Destination("", host, DefaultPort, user);
    assert ParseHostLine(host, user) == Ok(d);
    var lines := Split(host, '\n');
    assert lines == [host];
    HostLine(lines, 0, [], user, "all");
    assert lines[1..] == [];
    assert [d] + [] == [d];
  }

  /** `PlayBook.TargetHosts`. */
  method TargetHosts(p: PlayBook, name: string, src: Sources) returns (r: Result<seq<Destination>>)
    ensures r == TargetSpec(p, name, src)
  {
    var user := p.user;
    if p.overrides.user != "" {
      user := p.overrides.user;
    }
    var o := p.overrides;
    if |o.targetHosts| > 0 {
      r := ParseHostList(o.targetHosts, user);
      return;
    }
    if o.inventoryFile != "" {
      r := LoadInventoryFile(src, p, o.inventoryFile, []);
      return;
    }
    if o.inventoryURL != "" {
      r := LoadInventoryURL(src, p, o.inventoryURL, []);
      return;
    }
    if name !in p.targets {
      var isValidTarget := src.parseIP(name) || '.' in name || HasPrefix(name, "localhost");
      if isValidTarget {
        if ':' !in name {
          return Ok([Destination("", name, DefaultPort, user)]);
        }
        var elems := Split(name, ':');
        var port := Atoi(elems[1]);
        if port.Err? {
          return Err("can't parse port " + elems[1] + ": " + port.error);
        }
        return Ok([Destination("", elems[0], port.value, user)]);
      }
      return Err("target " + name + " not found");
    }
    var t := p.targets[name];
    if t.hosts.Some? && |t.hosts.value| > 0 {
      var res := CompleteHosts(t.hosts.value, user);
      return Ok(res);
    }
    if t.inventoryFile.location != "" {
      r := LoadInventoryFile(src, p, t.inventoryFile.location, t.inventoryFile.groups);
      return;
    }
    if t.inventoryURL.location != "" {
      r := LoadInventoryURL(src, p, t.inventoryURL.location, t.inventoryFile.groups);
      return;
    }
    if t.hosts.None? {
      return Err("target " + name + " has no hosts");
    }
    return Ok([]);
  }

  /** The loop over the hosts given on the command line: each is
      `host[:port]`, and the first bad port ends the loop with an error. */
  method ParseHostList(hs: seq<string>, user: string) returns (r: Result<seq<Destination>>)
    ensures r == HostPorts(hs, user)
  {
    var res: seq<Destination> := [];
    var i := 0;
    assert hs[i..] == hs;
    PrependNothing(HostPorts(hs, user));
    while i < |hs|
      invariant 0 <= i <= |hs|
      invariant HostPorts(hs, user) == Prepend(res, HostPorts(hs[i..], user))
    {
      HostPortsStep(hs, i, user);
      var elems := Split(hs[i], ':');
      if |elems| == 1 {
        PrependTwice(res, [Destination("", elems[0], DefaultPort, user)], HostPorts(hs[i + 1..], user));
        res := res + [Destination("", elems[0], DefaultPort, user)];
      } else {
        var port := Atoi(elems[1]);
        if port.Err? {
          return Err("can't parse port " + elems[1] + ": " + port.error);
        }
        PrependTwice(res, [Destination("", elems[0], port.value, user)], HostPorts(hs[i + 1..], user));
        res := res + [Destination("", elems[0], port.value, user)];
      }
      i := i + 1;
    }
    assert hs[i..] == [];
    assert res + [] == res;
    r := Ok(res);
  }

  /** One host of the list, read through its colon fields as the loop does. */
  lemma HostPortsStep(hs: seq<string>, i: nat, user: string)
    requires i < |hs|
    ensures var e := Split(hs[i], ':');
            var rest := HostPorts(hs[i + 1..], user);
            && (|e| == 1 ==>
                  HostPorts(hs[i..], user) == Prepend([Destination("", e[0], DefaultPort, user)], rest))
            && (|e| > 1 && Atoi(e[1]).Err? ==>
                  HostPorts(hs[i..], user) == Err("can't parse port " + e[1] + ": " + Atoi(e[1]).error))
            && (|e| > 1 && Atoi(e[1]).Ok? ==>
                  HostPorts(hs[i..], user) == Prepend([Destination("", e[0], Atoi(e[1]).value, user)], rest))
  {
    assert hs[i..][1..] == hs[i + 1..];
  }

  /** The loop over a target's own hosts: fills in port 22 and the default
      user where the playbook leaves them out. */
  method CompleteHosts(hs: seq<Destination>, user: string) returns (ds: seq<Destination>)
    ensures ds == CompletedAll(hs, user)
  {
    var res := new Destination[|hs|];
    var i := 0;
    while i < |hs|
      invariant 0 <= i <= |hs| == res.Length
      invariant forall j :: 0 <= j < i ==> res[j] == Completed(hs[j], user)
    {
      var h := hs[i];
      if h.port == 0 {
        h := h.(port := DefaultPort);
      }
      if h.user == "" {
        h := h.(user := user);
      }
      res[i] := h;
      i := i + 1;
    }
    ds := res[..];
    assert ds == CompletedAll(hs, user);
  }

  /** The `loadInventoryFile` closure. */
  method LoadInventoryFile(src: Sources, p: PlayBook, location: string, groups: seq<string>) returns (r: Result<seq<Destination>>)
    ensures r == FromFile(src, p, location, groups)
  {
    var text := src.readFile(location);
    if text.Err? {
      return Err("can't open inventory file " + location + ": " + text.error);
    }
    var hosts := ParseInventory(text.value, groups, p.user);
    if hosts.Err? {
      return Err("can't parse inventory file " + location + ": " + hosts.error);
    }
    return hosts;
  }

  /** The `loadInventoryURL` closure. */
  method LoadInventoryURL(src: Sources, p: PlayBook, url: string, groups: seq<string>) returns (r: Result<seq<Destination>>)
    ensures r == FromURL(src, p, url, groups)
  {
    var reply := src.fetchURL(url);
    if reply.HttpFailed? {
      return Err("can't get inventory from http " + url + ": " + reply.err);
    }
    if reply.status != 200 {
      return Err("can't get inventory from http " + url + ", status: " + reply.statusText);
    }
    var hosts := ParseInventory(reply.body, groups, p.user);
    if hosts.Err? {
      return Err("can't parse inventory from http " + url + ": " + hosts.error);
    }
    return hosts;
  }
}
