/** How a script command is turned into something a shell runs: a single
    line becomes one `sh -c "…"` command, several lines become a script
    file. Both carry the command's environment, sorted. */
module Script {
  import opened Wrappers
  import opened Text
  import opened StringOrder
  import opened Config

  // ---------------------------------------------------------------------
  // Environment

  /** One variable written as the shell assignment `k='v'`. */
  function EnvLine(k: string, v: string): string {
    k + "='" + v + "'"
  }

  /** The assignments of all variables of `m`, without order. */
  ghost function EnvEntries(m: map<string, string>): (es: multiset<string>)
    ensures |es| == |m|
    decreases |m|
  {
    if m == map[] then multiset{}
    else
      var k :| k in m;
      multiset{EnvLine(k, m[k])} + EnvEntries(m - {k})
  }

  /** The assignments do not depend on which variable is taken first. */
  lemma {:induction false} EnvEntriesPick(m: map<string, string>, k: string)
    requires k in m
    ensures EnvEntries(m) == multiset{EnvLine(k, m[k])} + EnvEntries(m - {k})
    decreases |m|
  {
    var j := ChosenKey(m);
    if j != k {
      var mj := m - {j};
      var mk := m - {k};
      RemoveOne(m, j);
      RemoveOne(m, k);
      EnvEntriesPick(mj, k);
      EnvEntriesPick(mk, j);
      RemoveBoth(m, j, k);
    }
  }

  /** The variable `EnvEntries` takes first. */
  lemma ChosenKey(m: map<string, string>) returns (j: string)
    requires m != map[]
    ensures j in m && EnvEntries(m) == multiset{EnvLine(j, m[j])} + EnvEntries(m - {j})
  {
    j :| j in m && EnvEntries(m) == multiset{EnvLine(j, m[j])} + EnvEntries(m - {j});
  }

  lemma RemoveOne(m: map<string, string>, k: string)
    requires k in m
    ensures |m - {k}| < |m|
  {
    assert (m - {k}).Keys < m.Keys;
  }

  lemma RemoveBoth(m: map<string, string>, j: string, k: string)
    requires j in m && k in m && j != k
    ensures (m - {j}) - {k} == (m - {k}) - {j}
    ensures k in m - {j} && (m - {j})[k] == m[k]
    ensures j in m - {k} && (m - {k})[j] == m[j]
  {
  }

  /** The assignment lines are exactly one per variable. */
  lemma {:induction false} EnvEntriesMembers(m: map<string, string>, x: string)
    ensures x in EnvEntries(m) <==> exists k :: k in m && x == EnvLine(k, m[k])
    decreases |m|
  {
    if m != map[] {
      var k :| k in m;
      EnvEntriesPick(m, k);
      var rest := m - {k};
      RemoveOne(m, k);
      EnvEntriesMembers(rest, x);
      if exists j :: j in m && x == EnvLine(j, m[j]) {
        var j :| j in m && x == EnvLine(j, m[j]);
        if j != k {
          assert j in rest && rest[j] == m[j];
        }
      }
    }
  }

  /** The assignment lines in Go's string order. */
  ghost function EnvList(m: map<string, string>): (r: seq<string>)
    ensures Sorted(r) && multiset(r) == EnvEntries(m)
  {
    SortedExists(EnvEntries(m));
    var s :| Sorted(s) && multiset(s) == EnvEntries(m);
    s
  }

  /** `genEnv`: collects the assignments in map order, whatever that is,
      then sorts them. The result is the same for every map order. */
  method GenEnv(env: map<string, string>) returns (r: seq<string>)
    ensures r == EnvList(env)
  {
    var envs: seq<string> := [];
    var rest := env;
    while rest != map[]
      invariant multiset(envs) + EnvEntries(rest) == EnvEntries(env)
      decreases |rest|
    {
      var k :| k in rest;
      EnvEntriesPick(rest, k);
      envs := envs + [EnvLine(k, rest[k])];
      RemoveOne(rest, k);
      rest := rest - {k};
    }
    var a := new string[|envs|](i requires 0 <= i < |envs| => envs[i]);
    assert a[..] == envs;
    SortStrings(a);
    r := a[..];
    SortedUnique(r, EnvList(env));
  }

  /** The sorted assignments hold one line per variable and nothing else. */
  lemma EnvListMembers(m: map<string, string>)
    ensures |EnvList(m)| == |m|
    ensures forall k :: k in m ==> EnvLine(k, m[k]) in EnvList(m)
    ensures forall x :: x in EnvList(m) ==> exists k :: k in m && x == EnvLine(k, m[k])
  {
    var r := EnvList(m);
    assert |r| == |multiset(r)|;
    forall k | k in m ensures EnvLine(k, m[k]) in r {
      EnvEntriesMembers(m, EnvLine(k, m[k]));
      assert EnvLine(k, m[k]) in multiset(r);
    }
    forall x | x in r ensures exists k :: k in m && x == EnvLine(k, m[k]) {
      assert x in multiset(r);
      EnvEntriesMembers(m, x);
    }
  }

  // ---------------------------------------------------------------------
  // Script lines

  /** Trimming keeps only characters of the input. */
  lemma TrimSpaceWithin(s: string, c: char)
    requires c !in s
    ensures c !in TrimSpace(s)
  {
    var l := TrimLeft(s);
    forall i | 0 <= i < |l| ensures l[i] != c {
      assert l[i] == s[|s| - |l| + i];
    }
    var r := TrimRight(l);
    forall i | 0 <= i < |r| ensures r[i] != c {
      assert r[i] == l[i];
    }
  }

  /** What one line of a script contributes: nothing when it is shorter
      than two bytes once trimmed, else the trimmed line with any `#`
      comment after its first character cut off. With `dropComments` (the
      file form) a line starting with `#` contributes nothing either. */
  function LinePart(el: string, dropComments: bool): Option<string> {
    var c := TrimSpace(el);
    if ShorterThanTwoBytes(c) then None
    else if dropComments && HasPrefix(c, "#") then None
    else
      var i := IndexOf(c, '#');
      if i > 0 then Some(TrimSpace(c[..i])) else Some(c)
  }

  /** A line contributes nothing exactly when its trimmed text is empty or a
      single ASCII character (shorter than two bytes), or, in the file form,
      starts with `#`; a kept part starts as the trimmed line does. */
  lemma LinePartRule(el: string, dropComments: bool)
    ensures var c := TrimSpace(el);
            var r := LinePart(el, dropComments);
            && (r.None? <==> c == [] || (|c| == 1 && c[0] as int < 0x80) || (dropComments && c[0] == '#'))
            && (r.Some? ==> r.value != "" && r.value[0] == c[0])
  {
    var c := TrimSpace(el);
    ShortUtf8(c);
    if !ShorterThanTwoBytes(c) && dropComments && c[0] == '#' {
      assert c[..1] == "#";
    }
  }

  /** The text of a kept part: the whole trimmed line when it holds no `#`
      or starts with one; otherwise the line cut before its first `#`, with
      the white space before the `#` dropped. So a kept part is a prefix of
      the trimmed line, and only white space lies between it and the first
      `#` when something was cut. */
  lemma KeptPartText(el: string, dropComments: bool)
    requires LinePart(el, dropComments).Some?
    ensures var c := TrimSpace(el);
            var x := LinePart(el, dropComments).value;
            && ('#' !in c ==> x == c)
            && (c[0] == '#' ==> x == c)
            && (0 < IndexOf(c, '#') ==> x == TrimRight(c[..IndexOf(c, '#')]))
            && |x| <= |c| && x == c[..|x|]
            && (|x| < |c| ==> 0 < IndexOf(c, '#') && forall k :: |x| <= k < IndexOf(c, '#') ==> IsSpace(c[k]))
  {
    var c := TrimSpace(el);
    var i := IndexOf(c, '#');
    if i > 0 {
      var h := c[..i];
      assert TrimLeft(h) == h by { assert h[0] == c[0]; }
      var x := TrimRight(h);
      assert x == c[..|x|];
      forall k | |x| <= k < i ensures IsSpace(c[k]) {
        assert c[k] == h[k];
      }
    } else if '#' in c {
      assert c[i] == '#';
    }
  }

  /** A line's part in the one-line command. */
  function CommandPart(el: string): Option<string> {
    LinePart(el, false)
  }

  /** A line's part in the script file. */
  function FilePart(el: string): Option<string> {
    LinePart(el, true)
  }

  /** A command part is never empty, and either is a whole-line comment or
      holds no `#` at all. */
  lemma CommandPartShape(el: string)
    requires CommandPart(el).Some?
    ensures var x := CommandPart(el).value;
            x != "" && (x[0] == '#' || '#' !in x)
  {
    var c := TrimSpace(el);
    var i := IndexOf(c, '#');
    if i > 0 {
      TrimSpaceWithin(c[..i], '#');
      assert c[..i][0] == c[0];
    }
  }

  /** The file keeps exactly the command parts that are not whole-line
      comments. */
  lemma FilePartIsCommandPartWithoutComments(el: string)
    ensures FilePart(el) == if CommandPart(el).Some? && CommandPart(el).value[0] == '#' then None else CommandPart(el)
  {
    if CommandPart(el).Some? {
      CommandPartShape(el);
      var c := TrimSpace(el);
      if HasPrefix(c, "#") {
        assert c[0] == '#';
        assert IndexOf(c, '#') == 0;
      } else {
        assert c[0] != '#' by { assert c[..1] != "#"; }
      }
    }
  }

  /** A line of the script file never holds a `#`. */
  lemma FilePartHasNoComment(el: string)
    requires FilePart(el).Some?
    ensures '#' !in FilePart(el).value && FilePart(el).value != ""
  {
    FilePartIsCommandPartWithoutComments(el);
    CommandPartShape(el);
  }

  /** An optional part as a sequence of zero or one parts. */
  function OptionSeq(o: Option<string>): (r: seq<string>)
    ensures |r| <= 1 && (o.Some? ==> r == [o.value]) && (o.None? ==> r == [])
  {
    if o.Some? then [o.value] else []
  }

  /** The parts of the lines that contribute one, in order. */
  function Parts(elems: seq<string>, dropComments: bool): seq<string> {
    if |elems| == 0 then []
    else OptionSeq(LinePart(elems[0], dropComments)) + Parts(elems[1..], dropComments)
  }


  /** The parts of the one-line command. */
  function CommandParts(script: string): seq<string> {
    Parts(Split(script, '\n'), false)
  }

  /** The lines of the script file. */
  function FileLines(script: string): seq<string> {
    Parts(Split(script, '\n'), true)
  }

  /** The one-line form of a script: `sh -c "…"` holding the assignments and
      then the parts joined by `; `. */
  function CommandForm(envs: seq<string>, script: string): string {
    "sh -c \"" + (if |envs| > 0 then Join(envs, " ") + " " else "")
    + Join(CommandParts(script), "; ") + "\""
  }

  /** The lines `export k='v'`, one per assignment. */
  function Exports(envs: seq<string>): string {
    if |envs| == 0 then "" else "export " + envs[0] + "\n" + Exports(envs[1..])
  }

  /** Each line followed by a newline. */
  function Lines(ls: seq<string>): string {
    if |ls| == 0 then "" else ls[0] + "\n" + Lines(ls[1..])
  }

  const ScriptHeader: string := "#!/bin/sh\nset -e\n"

  /** The file form of a script: a shebang, `set -e`, the exports and then
      the script lines. */
  function FileForm(envs: seq<string>, script: string): string {
    ScriptHeader + Exports(envs) + Lines(FileLines(script))
  }

  /** `getScriptCommand`. */
  method ScriptCommand(cmd: Cmd) returns (r: string)
    ensures cmd.script == "" ==> r == ""
    ensures cmd.script != "" ==> r == CommandForm(EnvList(cmd.environment), cmd.script)
  {
    if cmd.script == "" {
      return "";
    }
    var envs := GenEnv(cmd.environment);
    var assignments := "";
    if |envs| > 0 {
      assignments := Join(envs, " ") + " ";
    }
    var parts := CollectParts(Split(cmd.script, '\n'), false);
    r := "sh -c \"" + assignments + Join(parts, "; ") + "\"";
  }

  /** The loop over the script lines shared by both forms; `dropComments`
      selects the file form's handling of lines starting with `#`. */
  method CollectParts(elems: seq<string>, dropComments: bool) returns (parts: seq<string>)
    ensures parts == Parts(elems, dropComments)
  {
    parts := [];
    var i := 0;
    assert elems[i..] == elems;
    while i < |elems|
      invariant 0 <= i <= |elems|
      invariant parts + Parts(elems[i..], dropComments) == Parts(elems, dropComments)
    {
      var part := TrimmedPart(elems[i], dropComments);
      PartsStep(elems, i, parts, dropComments);
      parts := parts + OptionSeq(part);
      i := i + 1;
    }
    assert elems[i..] == [];
  }

  lemma PartsStep(elems: seq<string>, i: nat, done: seq<string>, dropComments: bool)
    requires i < |elems|
    ensures done + Parts(elems[i..], dropComments)
         == (done + OptionSeq(LinePart(elems[i], dropComments))) + Parts(elems[i + 1..], dropComments)
  {
    assert elems[i..][1..] == elems[i + 1..];
  }

  /** The body of the loop over the script lines. */
  method TrimmedPart(el: string, dropComments: bool) returns (part: Option<string>)
    ensures part == LinePart(el, dropComments)
  {
    var c := TrimSpace(el);
    if ShorterThanTwoBytes(c) {
      return None;
    }
    if dropComments && HasPrefix(c, "#") {
      return None;
    }
    var j := IndexOf(c, '#');
    if j > 0 {
      c := TrimSpace(c[..j]);
    }
    return Some(c);
  }

  lemma HeaderLines()
    ensures "#!/bin/sh\n" + "set -e\n" == ScriptHeader
  {
  }

  /** `getScriptFile`. */
  method ScriptFile(cmd: Cmd) returns (r: string)
    ensures r == FileForm(EnvList(cmd.environment), cmd.script)
  {
    r := "#!/bin/sh\n";
    r := r + "set -e\n";
    HeaderLines();
    var envs := GenEnv(cmd.environment);
    r := WriteExports(r, envs);
    var lines := CollectParts(Split(cmd.script, '\n'), true);
    r := WriteLines(r, lines);
  }

  /** The loop writing one `export` line per assignment. */
  method WriteExports(buf: string, envs: seq<string>) returns (r: string)
    ensures r == buf + Exports(envs)
  {
    r := buf;
    var i := 0;
    assert envs[i..] == envs;
    while i < |envs|
      invariant 0 <= i <= |envs|
      invariant r + Exports(envs[i..]) == buf + Exports(envs)
    {
      assert envs[i..][1..] == envs[i + 1..];
      assert r + Exports(envs[i..]) == r + "export " + envs[i] + "\n" + Exports(envs[i + 1..]);
      r := r + "export " + envs[i] + "\n";
      i := i + 1;
    }
    assert envs[i..] == [];
  }

  /** The loop writing each script line followed by a newline. */
  method WriteLines(buf: string, lines: seq<string>) returns (r: string)
    ensures r == buf + Lines(lines)
  {
    r := buf;
    var i := 0;
    assert lines[i..] == lines;
    while i < |lines|
      invariant 0 <= i <= |lines|
      invariant r + Lines(lines[i..]) == buf + Lines(lines)
    {
      assert lines[i..][1..] == lines[i + 1..];
      assert r + Lines(lines[i..]) == r + lines[i] + "\n" + Lines(lines[i + 1..]);
      r := r + lines[i] + "\n";
      i := i + 1;
    }
    assert lines[i..] == [];
  }

  /** `Cmd.GetScript`: nothing for an empty script, the file form for a
      script of several lines, the command form for a single line. */
  method GetScript(cmd: Cmd) returns (command: string, file: Option<string>)
    ensures cmd.script == "" ==> command == "" && file == None
    ensures cmd.script != "" && '\n' in cmd.script ==>
              command == "" && file == Some(FileForm(EnvList(cmd.environment), cmd.script))
    ensures cmd.script != "" && '\n' !in cmd.script ==>
              command == CommandForm(EnvList(cmd.environment), cmd.script) && file == None
  {
    if cmd.script == "" {
      return "", None;
    }
    var elems := Split(cmd.script, '\n');
    if |elems| > 1 {
      var f := ScriptFile(cmd);
      return "", Some(f);
    }
    command := ScriptCommand(cmd);
    file := None;
  }
}
