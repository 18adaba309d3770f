/** `loadEnv`: the hand-written `.env` reader that fills the process environment. */
module DotEnv {

  import opened Wrappers
  import opened Text

  /** An environment variable counts as set when it is present and not empty
      (JavaScript treats an empty string as false). */
  predicate IsSet(env: map<string, string>, key: string) {
    key in env && env[key] != ""
  }

  /** What one line of the file assigns: nothing for an empty line or a comment;
      otherwise the first two `=`-separated fields, both non-empty before trimming,
      trimmed. */
  function ParseLine(line: string): Option<(string, string)> {
    if line == "" || StartsWith(line, "#") then None
    else
      var fields := Split(line, '=');
      var key := fields[0];
      if key != "" && |fields| >= 2 && fields[1] != "" then Some((Trim(key), Trim(fields[1])))
      else None
  }

  predicate Defines(line: string, key: string) {
    ParseLine(line).Some? && ParseLine(line).value.0 == key
  }

  /** The environment after one line has been applied. */
  function ApplyLine(env: map<string, string>, line: string): map<string, string> {
    match ParseLine(line)
    case None => env
    case Some((key, value)) => env[key := value]
  }

  /** The environment after the lines have been applied in order. */
  function ApplyLines(env: map<string, string>, lines: seq<string>): map<string, string>
    decreases |lines|
  {
    if lines == [] then env
    else ApplyLine(ApplyLines(env, lines[..|lines| - 1]), lines[|lines| - 1])
  }

  /** A line that does not define a key leaves that key as it was. */
  lemma ApplyLineKeeps(env: map<string, string>, line: string, key: string)
    requires !Defines(line, key)
    ensures key in ApplyLine(env, line) <==> key in env
    ensures key in env ==> ApplyLine(env, line)[key] == env[key]
  {
  }

  /** A line `key=value` or `key=value=rest` assigns the trimmed key and value when
      both are non-empty and the key does not start a comment; text after a second
      `=` is ignored. */
  lemma ParseAssignment(key: string, value: string, rest: string)
    requires '=' !in key && '=' !in value
    requires rest == "" || rest[0] == '='
    ensures ParseLine(key + "=" + value + rest) ==
      if key != "" && key[0] != '#' && value != "" then Some((Trim(key), Trim(value))) else None
  {
    var line := key + "=" + value + rest;
    assert line == key + ['='] + (value + rest);
    SplitAtSeparator(key, value + rest, '=');
    if rest == "" {
      assert value + rest == value;
      SplitNoSeparator(value, '=');
    } else {
      assert value + rest == value + ['='] + rest[1..];
      SplitAtSeparator(value, rest[1..], '=');
    }
    if key != "" {
      assert line[0] == key[0];
      assert StartsWith(line, "#") <==> key[0] == '#';
    }
  }

  /** A line without `=` assigns nothing. */
  lemma NoSeparatorNoAssignment(line: string)
    requires '=' !in line
    ensures ParseLine(line) == None
  {
    SplitNoSeparator(line, '=');
  }

  /** Empty lines and comment lines assign nothing. */
  lemma CommentsAssignNothing(line: string)
    requires line == "" || line[0] == '#'
    ensures ParseLine(line) == None
  {
  }

  /** The value of a key is the one given by the last line that defines it. */
  lemma {:induction false} LastDefinitionWins(env: map<string, string>, lines: seq<string>, j: nat, key: string, value: string)
    requires j < |lines| && ParseLine(lines[j]) == Some((key, value))
    requires forall i :: j < i < |lines| ==> !Defines(lines[i], key)
    ensures key in ApplyLines(env, lines) && ApplyLines(env, lines)[key] == value
    decreases |lines|
  {
    var init := lines[..|lines| - 1];
    if j < |lines| - 1 {
      assert forall i :: j < i < |init| ==> init[i] == lines[i];
      LastDefinitionWins(env, init, j, key, value);
      ApplyLineKeeps(ApplyLines(env, init), lines[|lines| - 1], key);
    }
  }

  /** A key that no line defines keeps whatever the environment already held. */
  lemma {:induction false} UndefinedKeysUntouched(env: map<string, string>, lines: seq<string>, key: string)
    requires forall i :: 0 <= i < |lines| ==> !Defines(lines[i], key)
    ensures key in ApplyLines(env, lines) <==> key in env
    ensures key in env ==> ApplyLines(env, lines)[key] == env[key]
    decreases |lines|
  {
    if lines != [] {
      var init := lines[..|lines| - 1];
      assert forall i :: 0 <= i < |init| ==> init[i] == lines[i];
      UndefinedKeysUntouched(env, init, key);
      ApplyLineKeeps(ApplyLines(env, init), lines[|lines| - 1], key);
    }
  }

  /** The process environment, updated in place by `loadEnv`. */
  class Environment {

    var vars: map<string, string>

    constructor (initial: map<string, string>)
      ensures vars == initial
    {
      vars := initial;
    }

    /** Reads the `.env` text (`None` when the file cannot be read, which only logs)
        and assigns each line's variable in turn. */
    method LoadEnv(file: Option<string>)
      modifies this
      ensures file.None? ==> vars == old(vars)
      ensures file.Some? ==> vars == ApplyLines(old(vars), Split(file.value, '\n'))
    {
      if file.None? {
        return;
      }
      var lines := Split(file.value, '\n');
      var i := 0;
      while i < |lines|
        invariant 0 <= i <= |lines|
        invariant vars == ApplyLines(old(vars), lines[..i])
      {
        var line := lines[i];
        assert lines[..i + 1][..i] == lines[..i];
        if line != "" && !StartsWith(line, "#") {
          var fields := Split(line, '=');
          var key := fields[0];
          if key != "" && |fields| >= 2 && fields[1] != "" {
            vars := vars[Trim(key) := Trim(fields[1])];
          }
        }
        i := i + 1;
      }
      assert lines[..i] == lines;
    }

  }

}
