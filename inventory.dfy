/** The inventory text format: lines of `host[:port][ user]`, grouped under
    `[group]` headers, with blank lines and `#` comments ignored. */
module Inventory {
  import opened Wrappers
  import opened Text
  import opened Config

  /** The group filter: an empty list accepts every group. */
  predicate Accepts(groups: seq<string>, group: string) {
    |groups| == 0 || group in groups
  }

  /** A trimmed line that carries nothing: blank, or a comment. */
  predicate IsIgnored(line: string) {
    line == "" || HasPrefix(line, "#")
  }

  /** A trimmed line that opens a group. */
  predicate IsHeader(line: string) {
    HasPrefix(line, "[") && HasSuffix(line, "]")
  }

  /** The name between the brackets of a header. */
  function GroupName(line: string): string
    requires IsHeader(line)
  {
    assert line[..1] == "[" && line[|line| - 1..] == "]";
    assert line[0] == '[' && line[|line| - 1] == ']';
    line[1..|line| - 1]
  }

  /** One host line `host[:port][ user]`: the user is the second
      space-separated field when there is one, the port the second
      colon-separated field of the first when it has a colon, 22 otherwise. */
  function ParseHostLine(line: string, defaultUser: string): Result<Destination>
  {
    var fields := Split(line, ' ');
    var user := if |fields| > 1 then fields[1] else defaultUser;
    if ':' !in fields[0] then Ok(Destination("", fields[0], DefaultPort, user))
    else
      var hostPort := Split(fields[0], ':');
      match Atoi(hostPort[1])
      case Err(e) => Err("can't parse port " + hostPort[1] + ": " + e)
      case Ok(port) => Ok(Destination("", hostPort[0], port, user))
  }

  /** The user is the second space field when there is one, else the default
      user. Without a colon in the first field, that field is the host on port
      22; with one, the host is its first colon field and the port the value of
      the second, or the line fails with `strconv.Atoi`'s message. A parsed
      host holds neither a space nor a colon. */
  lemma HostLineFields(line: string, defaultUser: string)
    ensures var r := ParseHostLine(line, defaultUser);
            var fields := Split(line, ' ');
            var user := if |fields| > 1 then fields[1] else defaultUser;
            && (':' !in fields[0] ==> r == Ok(Destination("", fields[0], DefaultPort, user)))
            && (':' in fields[0] ==>
                  var hostPort := Split(fields[0], ':');
                  |hostPort| > 1
                  && (Atoi(hostPort[1]).Err? ==> r == Err("can't parse port " + hostPort[1] + ": " + Atoi(hostPort[1]).error))
                  && (Atoi(hostPort[1]).Ok? ==> r == Ok(Destination("", hostPort[0], Atoi(hostPort[1]).value, user))))
            && (r.Ok? ==> r.value.name == "" && ' ' !in r.value.host && ':' !in r.value.host)
  {
  }

  /** The host line a destination is written as in an inventory. */
  function FormatHostLine(host: string, port: string, user: string): string {
    host + ":" + port + " " + user
  }

  /** Parsing a written host line gives back its host, port and user. */
  lemma HostLineRoundTrip(host: string, port: string, user: string, defaultUser: string)
    requires ' ' !in host && ':' !in host && ' ' !in user
    requires |port| > 0 && AllDigits(port) && DigitsValue(port) <= MaxInt
    ensures ParseHostLine(FormatHostLine(host, port, user), defaultUser)
         == Ok(Destination("", host, DigitsValue(port), user))
  {
    var hostPort := host + [':'] + port;
    DigitsHaveNoSeparators(port);
    assert FormatHostLine(host, port, user) == hostPort + [' '] + user;
    SplitFirst(hostPort, ' ', user);
    var fields := Split(FormatHostLine(host, port, user), ' ');
    assert fields == [hostPort, user];
    assert hostPort[|host|] == ':';
    SplitFirst(host, ':', port);
    assert Split(fields[0], ':') == [host, port];
  }

  /** A line without a colon gets port 22, and without a space the default user. */
  lemma HostLineDefaults(host: string, defaultUser: string)
    requires ' ' !in host && ':' !in host
    ensures ParseHostLine(host, defaultUser) == Ok(Destination("", host, DefaultPort, defaultUser))
  {
  }

  /** Two spaces between host and user leave an empty user: the line is split
      on single spaces. */
  lemma DoubleSpaceEmptiesUser(host: string, user: string, defaultUser: string)
    requires ' ' !in host && ':' !in host && host != ""
    ensures ParseHostLine(host + "  " + user, defaultUser) == Ok(Destination("", host, DefaultPort, ""))
  {
    assert host + "  " + user == host + [' '] + ([] + [' '] + user);
    SplitFirst(host, ' ', [] + [' '] + user);
    SplitFirst([], ' ', user);
  }

  /** Only the second colon-separated field is read as the port; any further
      fields are ignored. */
  lemma ExtraColonFieldsIgnored(host: string, port: string, extra: string, defaultUser: string)
    requires ' ' !in host && ':' !in host && ' ' !in extra
    requires |port| > 0 && AllDigits(port) && DigitsValue(port) <= MaxInt
    ensures ParseHostLine(host + ":" + port + ":" + extra, defaultUser)
         == Ok(Destination("", host, DigitsValue(port), defaultUser))
  {
    var line := host + ":" + port + ":" + extra;
    DigitsHaveNoSeparators(port);
    NoSpaceIn(host, port, extra);
    ColonFields(host, port, extra);
    var hostPort := Split(line, ':');
    assert Atoi(hostPort[1]) == Ok(DigitsValue(port));
  }

  lemma DigitsHaveNoSeparators(port: string)
    requires AllDigits(port)
    ensures ' ' !in port && ':' !in port
  {
  }

  lemma NoSpaceIn(host: string, port: string, extra: string)
    requires ' ' !in host && ' ' !in port && ' ' !in extra
    ensures Split(host + ":" + port + ":" + extra, ' ') == [host + ":" + port + ":" + extra]
  {
    var line := host + ":" + port + ":" + extra;
    assert ' ' !in line;
  }

  lemma ColonFields(host: string, port: string, extra: string)
    requires ':' !in host && ':' !in port
    ensures var fields := Split(host + ":" + port + ":" + extra, ':');
            |fields| > 1 && fields[0] == host && fields[1] == port
  {
    assert host + ":" + port + ":" + extra == host + [':'] + (port + [':'] + extra);
    SplitFirst(host, ':', port + [':'] + extra);
    SplitFirst(port, ':', extra);
  }

  /** The result of parsing `lines` (already split, not yet trimmed) with
      `group` as the current group. */
  function ParseFrom(lines: seq<string>, groups: seq<string>, defaultUser: string, group: string): Result<seq<Destination>>
    decreases |lines|
  {
    if |lines| == 0 then Ok([])
    else
      var line := TrimSpace(lines[0]);
      if IsIgnored(line) then ParseFrom(lines[1..], groups, defaultUser, group)
      else if IsHeader(line) then ParseFrom(lines[1..], groups, defaultUser, GroupName(line))
      else if !Accepts(groups, group) then ParseFrom(lines[1..], groups, defaultUser, group)
      else
        match ParseHostLine(line, defaultUser)
        case Err(e) => Err(e)
        case Ok(d) => Prepend([d], ParseFrom(lines[1..], groups, defaultUser, group))
  }

  /** Puts `ds` in front of a successful result; passes an error through. */
  function Prepend(ds: seq<Destination>, r: Result<seq<Destination>>): Result<seq<Destination>> {
    match r
    case Ok(rest) => Ok(ds + rest)
    case Err(e) => Err(e)
  }

  /** `parseInventory`: reads the lines of `text` in order, tracking the
      current group (initially `all`), and parses every host line that sits
      under an accepted group. The first malformed port is an error. */
  method ParseInventory(text: string, groups: seq<string>, defaultUser: string) returns (r: Result<seq<Destination>>)
    ensures r == ParseFrom(Split(text, '\n'), groups, defaultUser, "all")
  {
    r := ParseLines(Split(text, '\n'), groups, defaultUser);
  }

  /** The loop of `parseInventory` over the lines of the text. */
  method ParseLines(lines: seq<string>, groups: seq<string>, defaultUser: string) returns (r: Result<seq<Destination>>)
    ensures r == ParseFrom(lines, groups, defaultUser, "all")
  {
    var res: seq<Destination> := [];
    var currentGroup := "all";
    var i := 0;
    assert lines[i..] == lines;
    PrependNothing(ParseFrom(lines, groups, defaultUser, currentGroup));
    while i < |lines|
      invariant 0 <= i <= |lines|
      invariant ParseFrom(lines, groups, defaultUser, "all")
             == Prepend(res, ParseFrom(lines[i..], groups, defaultUser, currentGroup))
    {
      var failure;
      failure, currentGroup, res := ParseLine(lines, i, groups, defaultUser, currentGroup, res);
      if failure.Some? {
        return Err(failure.value);
      }
      i := i + 1;
    }
    assert lines[i..] == [];
    assert res + [] == res;
    r := Ok(res);
  }

  /** One line of `parseInventory`: blank lines, comments and hosts outside
      the accepted groups are skipped, a header switches the group, a host
      line is parsed and appended, and a bad port stops the scan. */
  method ParseLine(lines: seq<string>, i: nat, groups: seq<string>, defaultUser: string, group: string,
                   res: seq<Destination>)
    returns (failure: Option<string>, group': string, res': seq<Destination>)
    requires i < |lines|
    ensures failure.Some? ==> Prepend(res, ParseFrom(lines[i..], groups, defaultUser, group)) == Err(failure.value)
    ensures failure.None? ==> Prepend(res, ParseFrom(lines[i..], groups, defaultUser, group))
                              == Prepend(res', ParseFrom(lines[i + 1..], groups, defaultUser, group'))
  {
    var line := TrimSpace(lines[i]);
    failure, group', res' := None, group, res;
    if IsIgnored(line) || (!IsHeader(line) && !Accepts(groups, group)) {
      SkipLine(lines, i, groups, defaultUser, group);
    } else if IsHeader(line) {
      HeaderLine(lines, i, groups, defaultUser, group);
      group' := GroupName(line);
    } else {
      var dest := ParseHostLine(line, defaultUser);
      HostLine(lines, i, groups, defaultUser, group);
      if dest.Err? {
        failure := Some(dest.error);
      } else {
        PrependTwice(res, [dest.value], ParseFrom(lines[i + 1..], groups, defaultUser, group));
        res' := res + [dest.value];
      }
    }
  }

  /** A blank or comment line, or a host line outside the accepted groups,
      contributes nothing. */
  lemma SkipLine(lines: seq<string>, i: nat, groups: seq<string>, defaultUser: string, group: string)
    requires i < |lines|
    requires IsIgnored(TrimSpace(lines[i])) || (!IsHeader(TrimSpace(lines[i])) && !Accepts(groups, group))
    ensures ParseFrom(lines[i..], groups, defaultUser, group) == ParseFrom(lines[i + 1..], groups, defaultUser, group)
  {
    assert lines[i..][0] == lines[i] && lines[i..][1..] == lines[i + 1..];
  }

  /** A header line switches the current group. */
  lemma HeaderLine(lines: seq<string>, i: nat, groups: seq<string>, defaultUser: string, group: string)
    requires i < |lines| && !IsIgnored(TrimSpace(lines[i])) && IsHeader(TrimSpace(lines[i]))
    ensures ParseFrom(lines[i..], groups, defaultUser, group)
         == ParseFrom(lines[i + 1..], groups, defaultUser, GroupName(TrimSpace(lines[i])))
  {
    assert lines[i..][0] == lines[i] && lines[i..][1..] == lines[i + 1..];
  }

  /** A host line under an accepted group is parsed; a bad one stops the scan. */
  lemma HostLine(lines: seq<string>, i: nat, groups: seq<string>, defaultUser: string, group: string)
    requires i < |lines| && !IsIgnored(TrimSpace(lines[i])) && !IsHeader(TrimSpace(lines[i]))
    requires Accepts(groups, group)
    ensures ParseHostLine(TrimSpace(lines[i]), defaultUser).Err? ==>
      ParseFrom(lines[i..], groups, defaultUser, group) == Err(ParseHostLine(TrimSpace(lines[i]), defaultUser).error)
    ensures ParseHostLine(TrimSpace(lines[i]), defaultUser).Ok? ==>
      ParseFrom(lines[i..], groups, defaultUser, group)
      == Prepend([ParseHostLine(TrimSpace(lines[i]), defaultUser).value], ParseFrom(lines[i + 1..], groups, defaultUser, group))
  {
    assert lines[i..][0] == lines[i] && lines[i..][1..] == lines[i + 1..];
  }

  lemma PrependNothing(r: Result<seq<Destination>>)
    ensures Prepend([], r) == r
  {
    if r.Ok? {
      assert [] + r.value == r.value;
    }
  }

  lemma PrependTwice(a: seq<Destination>, b: seq<Destination>, r: Result<seq<Destination>>)
    ensures Prepend(a, Prepend(b, r)) == Prepend(a + b, r)
  {
    if r.Ok? {
      assert a + (b + r.value) == (a + b) + r.value;
    }
  }

  /** A host line of the inventory together with the group it sits under. */
  datatype Entry = Entry(group: string, line: string)

  /** The host lines of `lines`, trimmed, in order, each with its group. */
  function Entries(lines: seq<string>, group: string): seq<Entry>
    decreases |lines|
  {
    if |lines| == 0 then []
    else
      var line := TrimSpace(lines[0]);
      if IsIgnored(line) then Entries(lines[1..], group)
      else if IsHeader(line) then Entries(lines[1..], GroupName(line))
      else [Entry(group, line)] + Entries(lines[1..], group)
  }

  /** The lines of the entries whose group the filter accepts, in order. */
  function Selected(entries: seq<Entry>, groups: seq<string>): seq<string>
  {
    if |entries| == 0 then []
    else if Accepts(groups, entries[0].group) then [entries[0].line] + Selected(entries[1..], groups)
    else Selected(entries[1..], groups)
  }

  /** Every line parsed in order; the first failure is the result. */
  function ParseAll(lines: seq<string>, defaultUser: string): Result<seq<Destination>>
  {
    if |lines| == 0 then Ok([])
    else
      match ParseHostLine(lines[0], defaultUser)
      case Err(e) => Err(e)
      case Ok(d) => Prepend([d], ParseAll(lines[1..], defaultUser))
  }

  /** Reading lines gives at most one host per line. */
  lemma {:induction false} ParseFromBounded(lines: seq<string>, groups: seq<string>, defaultUser: string, group: string)
    ensures var r := ParseFrom(lines, groups, defaultUser, group);
            r.Ok? ==> |r.value| <= |lines|
    decreases |lines|
  {
    if |lines| > 0 {
      var line := TrimSpace(lines[0]);
      var r := ParseFrom(lines, groups, defaultUser, group);
      if IsIgnored(line) || (!IsHeader(line) && !Accepts(groups, group)) {
        assert r == ParseFrom(lines[1..], groups, defaultUser, group);
        ParseFromBounded(lines[1..], groups, defaultUser, group);
      } else if IsHeader(line) {
        assert r == ParseFrom(lines[1..], groups, defaultUser, GroupName(line));
        ParseFromBounded(lines[1..], groups, defaultUser, GroupName(line));
      } else {
        ParseFromBounded(lines[1..], groups, defaultUser, group);
      }
    }
  }

  /** A parsed host line has no name. */
  lemma HostLineUnnamed(line: string, defaultUser: string)
    ensures ParseHostLine(line, defaultUser).Ok? ==> ParseHostLine(line, defaultUser).value.name == ""
  {
  }

  /** Parsing an inventory is the same as first collecting the host lines of
      the accepted groups, in order, and then parsing each of them: lines of
      other groups are never looked at, so a bad port there is no error. */
  lemma {:induction false} ParseIsFilterThenParse(lines: seq<string>, groups: seq<string>, defaultUser: string, group: string)
    ensures ParseFrom(lines, groups, defaultUser, group)
         == ParseAll(Selected(Entries(lines, group), groups), defaultUser)
    decreases |lines|
  {
    if |lines| > 0 {
      var line := TrimSpace(lines[0]);
      if IsIgnored(line) {
        ParseIsFilterThenParse(lines[1..], groups, defaultUser, group);
      } else if IsHeader(line) {
        ParseIsFilterThenParse(lines[1..], groups, defaultUser, GroupName(line));
      } else {
        ParseIsFilterThenParse(lines[1..], groups, defaultUser, group);
        HostLineStep(lines, groups, defaultUser, group);
      }
    }
  }

  lemma HostLineStep(lines: seq<string>, groups: seq<string>, defaultUser: string, group: string)
    requires |lines| > 0
    requires !IsIgnored(TrimSpace(lines[0])) && !IsHeader(TrimSpace(lines[0]))
    requires ParseFrom(lines[1..], groups, defaultUser, group)
          == ParseAll(Selected(Entries(lines[1..], group), groups), defaultUser)
    ensures ParseFrom(lines, groups, defaultUser, group)
         == ParseAll(Selected(Entries(lines, group), groups), defaultUser)
  {
    var line := TrimSpace(lines[0]);
    var rest := Entries(lines[1..], group);
    var es := Entries(lines, group);
    assert es == [Entry(group, line)] + rest;
    assert es[1..] == rest;
    if Accepts(groups, group) {
      var sel := Selected(es, groups);
      assert sel == [line] + Selected(rest, groups);
      assert sel[1..] == Selected(rest, groups);
    }
  }

  /** The position of the first line that does not parse, or the number of
      lines when all of them do. */
  function FirstBadLine(lines: seq<string>, defaultUser: string): (k: nat)
    ensures k <= |lines|
  {
    if |lines| == 0 || ParseHostLine(lines[0], defaultUser).Err? then 0
    else 1 + FirstBadLine(lines[1..], defaultUser)
  }

  /** Every line before the first bad line parses, and that line does not. */
  lemma {:induction false} FirstBadLineIsFirst(lines: seq<string>, defaultUser: string)
    ensures var k := FirstBadLine(lines, defaultUser);
            (forall j :: 0 <= j < k ==> ParseHostLine(lines[j], defaultUser).Ok?)
            && (k < |lines| ==> ParseHostLine(lines[k], defaultUser).Err?)
  {
    if |lines| > 0 && ParseHostLine(lines[0], defaultUser).Ok? {
      FirstBadLineIsFirst(lines[1..], defaultUser);
      var k := FirstBadLine(lines, defaultUser);
      forall j | 0 <= j < k ensures ParseHostLine(lines[j], defaultUser).Ok? {
        if j > 0 {
          assert lines[j] == lines[1..][j - 1];
        }
      }
      if k < |lines| {
        assert lines[k] == lines[1..][k - 1];
      }
    }
  }

  /** A parse fails exactly when some line fails, and then with the error of
      the first line that does. */
  lemma {:induction false} ParseAllErr(lines: seq<string>, defaultUser: string)
    ensures var k := FirstBadLine(lines, defaultUser);
            ParseAll(lines, defaultUser).Err? <==> k < |lines|
    ensures var k := FirstBadLine(lines, defaultUser);
            k < |lines| ==> ParseHostLine(lines[k], defaultUser).Err? && ParseAll(lines, defaultUser).Err?
                            && ParseAll(lines, defaultUser).error == ParseHostLine(lines[k], defaultUser).error
  {
    if |lines| > 0 && ParseHostLine(lines[0], defaultUser).Ok? {
      ParseAllErr(lines[1..], defaultUser);
      var k := FirstBadLine(lines[1..], defaultUser);
      if k < |lines| - 1 {
        assert lines[k + 1] == lines[1..][k];
      }
    }
  }

  /** A successful parse yields exactly one destination per line, in order,
      each the parse of its own line. */
  lemma {:induction false} ParseAllOk(lines: seq<string>, defaultUser: string)
    requires ParseAll(lines, defaultUser).Ok?
    ensures |ParseAll(lines, defaultUser).value| == |lines|
    ensures forall k :: 0 <= k < |lines| ==>
              ParseHostLine(lines[k], defaultUser) == Ok(ParseAll(lines, defaultUser).value[k])
  {
    if |lines| > 0 {
      ParseAllOk(lines[1..], defaultUser);
      var ds := ParseAll(lines, defaultUser).value;
      assert ds == [ParseHostLine(lines[0], defaultUser).value] + ParseAll(lines[1..], defaultUser).value;
      forall k | 0 < k < |lines| ensures ParseHostLine(lines[k], defaultUser) == Ok(ds[k]) {
        assert lines[k] == lines[1..][k - 1];
      }
    }
  }

  /** Hosts read from an inventory carry no name. */
  lemma ParseFromUnnamed(lines: seq<string>, groups: seq<string>, defaultUser: string, group: string)
    ensures var r := ParseFrom(lines, groups, defaultUser, group);
            r.Ok? ==> forall k :: 0 <= k < |r.value| ==> r.value[k].name == ""
  {
    var r := ParseFrom(lines, groups, defaultUser, group);
    if r.Ok? {
      ParseIsFilterThenParse(lines, groups, defaultUser, group);
      var sel := Selected(Entries(lines, group), groups);
      ParseAllOk(sel, defaultUser);
      forall k | 0 <= k < |r.value| ensures r.value[k].name == "" {
        HostLineUnnamed(sel[k], defaultUser);
      }
    }
  }

  /** An empty filter selects every host line. */
  lemma {:induction false} EmptyFilterSelectsAll(entries: seq<Entry>)
    ensures |Selected(entries, [])| == |entries|
    ensures forall k :: 0 <= k < |entries| ==> Selected(entries, [])[k] == entries[k].line
  {
    if |entries| > 0 {
      EmptyFilterSelectsAll(entries[1..]);
    }
  }

  /** The selected lines are exactly the host lines under accepted groups. */
  lemma {:induction false} SelectedMembers(entries: seq<Entry>, groups: seq<string>, line: string)
    ensures line in Selected(entries, groups) <==>
              exists k :: 0 <= k < |entries| && entries[k].line == line && Accepts(groups, entries[k].group)
  {
    if |entries| > 0 {
      SelectedMembers(entries[1..], groups, line);
      if exists k :: 0 <= k < |entries| && entries[k].line == line && Accepts(groups, entries[k].group) {
        var k :| 0 <= k < |entries| && entries[k].line == line && Accepts(groups, entries[k].group);
        if k > 0 { assert entries[1..][k - 1] == entries[k]; }
      }
    }
  }
}
