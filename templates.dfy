/** Placeholder substitution in command arguments: `${X}`, `$X` and `{X}`
    for the five variables the runner provides, in a fixed order. */
module Templates {
  import opened Wrappers
  import opened Text

  /** The three written forms of placeholder `name`, in the order they are
      replaced. */
  function Forms(name: string): (fs: seq<string>)
    ensures |fs| == 3 && forall i :: 0 <= i < 3 ==> |fs[i]| > |name|
  {
    ["${" + name + "}", "$" + name, "{" + name + "}"]
  }

  /** The `apply` closure: every `${name}`, then every `$name`, then every
      `{name}` replaced by `value`. */
  function Apply(s: string, name: string, value: string): string {
    var fs := Forms(name);
    ReplaceAll(ReplaceAll(ReplaceAll(s, fs[0], value), fs[1], value), fs[2], value)
  }

  /** The variable names, in the order they are substituted. */
  const RemoteHost: string := "SPOT_REMOTE_HOST"
  const Command: string := "SPOT_COMMAND"
  const RemoteUser: string := "SPOT_REMOTE_USER"
  const TaskName: string := "SPOT_TASK"
  const Error: string := "SPOT_ERROR"

  /** `applyTemplates`: host, command name, remote user, task name and error
      substituted in that order; without an error its placeholder becomes
      empty. */
  function ApplyTemplates(s: string, host: string, command: string, user: string, task: string, err: Option<string>): string {
    var errText := if err.Some? then err.value else "";
    Apply(Apply(Apply(Apply(Apply(s, RemoteHost, host), Command, command), RemoteUser, user), TaskName, task), Error, errText)
  }

  /** A pattern holding a character the text does not hold cannot occur in it. */
  lemma AbsentByChar(p: string, s: string, c: char)
    requires c in p && c !in s
    ensures !Occurs(p, s)
  {
  }

  /** Substituting a variable none of whose forms occurs changes nothing. */
  lemma ApplyAbsent(s: string, name: string, value: string)
    requires forall f :: f in Forms(name) ==> !Occurs(f, s)
    ensures Apply(s, name, value) == s
  {
    var fs := Forms(name);
    ReplaceAllAbsent(s, fs[0], value);
    ReplaceAllAbsent(s, fs[1], value);
    ReplaceAllAbsent(s, fs[2], value);
  }

  /** Substituting a variable whose name holds a character the text lacks
      changes nothing. */
  lemma ApplyAbsentByChar(s: string, name: string, value: string, c: char)
    requires c in name && c !in s
    ensures Apply(s, name, value) == s
  {
    var fs := Forms(name);
    forall f | f in fs ensures !Occurs(f, s) {
      var k :| 0 <= k < |name| && name[k] == c;
      if f == fs[0] {
        assert f[k + 2] == c;
      } else if f == fs[1] || f == fs[2] {
        assert f[k + 1] == c;
      }
      AbsentByChar(f, s, c);
    }
    ApplyAbsent(s, name, value);
  }

  /** Text without `$` and `{` has no placeholder and is returned as it is. */
  lemma NoSigilUnchanged(s: string, host: string, command: string, user: string, task: string, err: Option<string>)
    requires '$' !in s && '{' !in s
    ensures ApplyTemplates(s, host, command, user, task, err) == s
  {
    SigilFree(s, RemoteHost, host);
    SigilFree(s, Command, command);
    SigilFree(s, RemoteUser, user);
    SigilFree(s, TaskName, task);
    SigilFree(s, Error, if err.Some? then err.value else "");
  }

  lemma SigilFree(s: string, name: string, value: string)
    requires '$' !in s && '{' !in s
    ensures Apply(s, name, value) == s
  {
    var fs := Forms(name);
    assert fs[0][0] == '$' && fs[1][0] == '$' && fs[2][0] == '{';
    AbsentByChar(fs[0], s, '$');
    AbsentByChar(fs[1], s, '$');
    AbsentByChar(fs[2], s, '{');
    ApplyAbsent(s, name, value);
  }

  /** Text holding no form of any of the five variables is returned as it is. */
  lemma NoPlaceholderUnchanged(s: string, host: string, command: string, user: string, task: string, err: Option<string>)
    requires forall name, f :: name in [RemoteHost, Command, RemoteUser, TaskName, Error] && f in Forms(name) ==> !Occurs(f, s)
    ensures ApplyTemplates(s, host, command, user, task, err) == s
  {
    ApplyAbsent(s, RemoteHost, host);
    ApplyAbsent(s, Command, command);
    ApplyAbsent(s, RemoteUser, user);
    ApplyAbsent(s, TaskName, task);
    ApplyAbsent(s, Error, if err.Some? then err.value else "");
  }

  /** A placeholder that is the whole text becomes the value. */
  lemma WholePlaceholder(pat: string, value: string)
    requires pat != []
    ensures ReplaceAll(pat, pat, value) == value
  {
    assert pat[..|pat|] == pat && pat[|pat|..] == [];
    assert value + [] == value;
  }

  /** Without an error, `$SPOT_ERROR` becomes empty; with one, its text
      (when that text holds no `{`, which the last replacement would act on). */
  lemma ErrorPlaceholder(host: string, command: string, user: string, task: string, err: Option<string>)
    requires err.Some? ==> '{' !in err.value
    ensures ApplyTemplates("$SPOT_ERROR", host, command, user, task, err) == if err.Some? then err.value else ""
  {
    var s := "$SPOT_ERROR";
    assert 'H' !in s && 'M' !in s && 'U' !in s && 'K' !in s && '{' !in s;
    assert RemoteHost[12] == 'H' && Command[7] == 'M' && RemoteUser[12] == 'U' && TaskName[8] == 'K';
    ApplyAbsentByChar(s, RemoteHost, host, 'H');
    ApplyAbsentByChar(s, Command, command, 'M');
    ApplyAbsentByChar(s, RemoteUser, user, 'U');
    ApplyAbsentByChar(s, TaskName, task, 'K');
    var v := if err.Some? then err.value else "";
    LastStep(s, v);
  }

  lemma LastStep(s: string, v: string)
    requires s == "$SPOT_ERROR" && '{' !in v
    ensures Apply(s, Error, v) == v
  {
    var fs := Forms(Error);
    assert fs[0][0] == '$' && fs[0][1] == '{' && fs[2][0] == '{';
    AbsentByChar(fs[0], s, '{');
    ReplaceAllAbsent(s, fs[0], v);
    assert fs[1] == s;
    WholePlaceholder(s, v);
    AbsentByChar(fs[2], v, '{');
    ReplaceAllAbsent(v, fs[2], v);
  }

  /** `copy to ${SPOT_REMOTE_HOST}/$SPOT_TASK` on host `h1` for task
      `deploy` becomes `copy to h1/deploy`. */
  lemma CopyExample(s: string, host: string, command: string, user: string, task: string, err: Option<string>)
    requires s == "copy to ${SPOT_REMOTE_HOST}/$SPOT_TASK" && host == "h1" && task == "deploy"
    ensures ApplyTemplates(s, host, command, user, task, err) == "copy to h1/deploy"
  {
    var s1 := "copy to h1/$SPOT_TASK";
    var s2 := "copy to h1/deploy";
    HostStep(s, host, s1);
    MiddleChars(s1, s2);
    ApplyAbsentByChar(s1, Command, command, 'M');
    ApplyAbsentByChar(s1, RemoteUser, user, 'R');
    TaskStep(s1, task, s2);
    ApplyAbsentByChar(s2, Error, if err.Some? then err.value else "", 'R');
  }

  lemma MiddleChars(s1: string, s2: string)
    requires s1 == "copy to h1/$SPOT_TASK" && s2 == "copy to h1/deploy"
    ensures 'M' !in s1 && 'R' !in s1 && '{' !in s1 && 'R' !in s2 && '{' !in s2
  {
  }

  lemma HostStep(s: string, host: string, s1: string)
    requires s == "copy to ${SPOT_REMOTE_HOST}/$SPOT_TASK" && host == "h1" && s1 == "copy to h1/$SPOT_TASK"
    ensures Apply(s, RemoteHost, host) == s1
  {
    var pre, post := "copy to ", "/$SPOT_TASK";
    FirstFormReplaced(s, host, pre, post);
    Glue(pre, host, post, s1);
    LaterFormsAbsent(s1, host);
    ApplyChain(s, RemoteHost, host, s1, s1, s1);
  }

  lemma LaterFormsAbsent(s1: string, host: string)
    requires s1 == "copy to h1/$SPOT_TASK"
    ensures ReplaceAll(s1, Forms(RemoteHost)[1], host) == s1
    ensures ReplaceAll(s1, Forms(RemoteHost)[2], host) == s1
  {
    var fs := Forms(RemoteHost);
    MiddleChars(s1, "copy to h1/deploy");
    assert fs[1][6] == 'R' && fs[2][0] == '{';
    AbsentByChar(fs[1], s1, 'R');
    ReplaceAllAbsent(s1, fs[1], host);
    AbsentByChar(fs[2], s1, '{');
    ReplaceAllAbsent(s1, fs[2], host);
  }

  /** Substitution of one variable, form by form. */
  lemma ApplyChain(s: string, name: string, value: string, a: string, b: string, c: string)
    requires ReplaceAll(s, Forms(name)[0], value) == a
    requires ReplaceAll(a, Forms(name)[1], value) == b
    requires ReplaceAll(b, Forms(name)[2], value) == c
    ensures Apply(s, name, value) == c
  {
  }

  lemma Glue(pre: string, host: string, post: string, s1: string)
    requires pre == "copy to " && host == "h1" && post == "/$SPOT_TASK" && s1 == "copy to h1/$SPOT_TASK"
    ensures pre + host + post == s1
  {
  }

  lemma FirstFormReplaced(s: string, host: string, pre: string, post: string)
    requires s == "copy to ${SPOT_REMOTE_HOST}/$SPOT_TASK" && pre == "copy to " && post == "/$SPOT_TASK"
    ensures ReplaceAll(s, Forms(RemoteHost)[0], host) == pre + host + post
  {
    var pat := Forms(RemoteHost)[0];
    HostPieces(s, pre, pat, post);
    AbsentByChar(pat, pre + pat[..|pat| - 1], '}');
    ReplaceAllStep(pre, pat, host, post);
    AbsentByChar(pat, post, '{');
    ReplaceAllAbsent(post, pat, host);
  }

  lemma HostPieces(s: string, pre: string, pat: string, post: string)
    requires s == "copy to ${SPOT_REMOTE_HOST}/$SPOT_TASK" && pre == "copy to " && post == "/$SPOT_TASK"
    requires pat == "${SPOT_REMOTE_HOST}"
    ensures s == pre + pat + post
    ensures '}' in pat && '}' !in pre + pat[..|pat| - 1]
    ensures '{' in pat && '{' !in post
  {
    HostBraces(pre, pat, post);
  }

  lemma HostBraces(pre: string, pat: string, post: string)
    requires pre == "copy to " && post == "/$SPOT_TASK" && pat == "${SPOT_REMOTE_HOST}"
    ensures '}' in pat && '}' !in pre + pat[..|pat| - 1]
    ensures '{' in pat && '{' !in post
  {
    assert pat[|pat| - 1] == '}' && pat[1] == '{';
  }

  lemma TaskStep(s1: string, task: string, s2: string)
    requires s1 == "copy to h1/$SPOT_TASK" && task == "deploy" && s2 == "copy to h1/deploy"
    ensures Apply(s1, TaskName, task) == s2
  {
    var fs := Forms(TaskName);
    MiddleChars(s1, s2);
    assert fs[0][1] == '{' && fs[2][0] == '{';
    AbsentByChar(fs[0], s1, '{');
    ReplaceAllAbsent(s1, fs[0], task);
    SecondFormReplaced(s1, task, "copy to h1/", s2);
    AbsentByChar(fs[2], s2, '{');
    ReplaceAllAbsent(s2, fs[2], task);
  }

  lemma SecondFormReplaced(s1: string, task: string, pre: string, s2: string)
    requires s1 == "copy to h1/$SPOT_TASK" && pre == "copy to h1/" && task == "deploy" && s2 == "copy to h1/deploy"
    ensures ReplaceAll(s1, Forms(TaskName)[1], task) == s2
  {
    var pat := Forms(TaskName)[1];
    TaskPieces(s1, pre, pat, task, s2);
    AbsentByChar(pat, pre + pat[..|pat| - 1], 'K');
    ReplaceAllStep(pre, pat, task, "");
  }

  lemma TaskPieces(s1: string, pre: string, pat: string, task: string, s2: string)
    requires s1 == "copy to h1/$SPOT_TASK" && pre == "copy to h1/" && pat == "$SPOT_TASK"
    requires task == "deploy" && s2 == "copy to h1/deploy"
    ensures s1 == pre + pat + "" && pre + task + "" == s2
    ensures |pat| > 0 && 'K' in pat && 'K' !in pre + pat[..|pat| - 1]
  {
    assert pat[|pat| - 1] == 'K';
  }
}
