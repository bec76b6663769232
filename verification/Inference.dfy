/** Deciding which processes are agent sessions: internal/runtime/agent_process.go on Unix. */
module Inference {
  import opened Model
  import opened Text

  const AGENTS := {"codex", "claude", "opencode", "hermes", "openclaw", "nanoclaw"}
  const LAUNCHERS := {"bash", "bun", "deno", "node", "npx", "python", "python3", "sh", "zsh"}
  const SCRIPT_LAUNCHERS := {"bun", "deno", "node", "npx", "python", "python3"}

  /** Which paths exist (os.Stat) and which working directory a process has. */
  datatype Host = Host(pathExists: string -> bool, cwdOf: int -> Option<string>)

  predicate IsQuote(c: char) { c == '\"' || c == '\'' }

  function NormalizeCommand(command: string): string {
    if command == "" then "" else ToLower(Base(Trim(command, IsQuote)))
  }

  function FirstArg(args: string): string {
    var fields := Fields(args);
    if fields == [] then "" else fields[0]
  }

  predicate LooksLikePath(command: string) {
    Contains(command, "/") || Contains(command, "\\")
  }

  predicate IsAppBundle(args: string) {
    Contains(args, ".app/Contents/")
  }

  predicate IsFlag(arg: string) {
    HasPrefix(arg, "-")
  }

  /** The early-return scan over the arguments after argv0. */
  function ScanScript(args: seq<string>, host: Host): Option<string> {
    if args == [] then None
    else if IsFlag(args[0]) then ScanScript(args[1..], host)
    else
      var base := NormalizeCommand(args[0]);
      if base !in AGENTS then None
      else if LooksLikePath(args[0]) && !host.pathExists(args[0]) then None
      else Some(base)
  }

  function InferScript(commandBase: string, args: seq<string>, host: Host): Option<string> {
    if |args| < 2 then None
    else if commandBase !in SCRIPT_LAUNCHERS && NormalizeCommand(args[0]) !in SCRIPT_LAUNCHERS then None
    else ScanScript(args[1..], host)
  }

  /** inferAgentSource, branch by branch. */
  function InferSource(command: string, args: string, host: Host): Option<string> {
    if IsAppBundle(args) then None
    else
      var commandBase := NormalizeCommand(command);
      if commandBase in AGENTS then Some(commandBase)
      else
        var argv0 := FirstArg(args);
        var argv0Base := NormalizeCommand(argv0);
        if argv0Base == "" then None
        else if argv0Base in AGENTS && (argv0Base == commandBase || commandBase in LAUNCHERS) then Some(argv0Base)
        else if argv0Base in AGENTS && LooksLikePath(argv0) && host.pathExists(argv0) then Some(argv0Base)
        else InferScript(commandBase, Fields(args), host)
  }

  // ----- What the answer means -----

  /** `k` is the first argument after argv0 that is not a flag. */
  ghost predicate FirstPositional(args: seq<string>, k: nat) {
    && 1 <= k < |args|
    && !IsFlag(args[k])
    && forall j :: 1 <= j < k ==> IsFlag(args[j])
  }

  /** argv0 vouches for the process: a launcher exec'd it, or it is an existing path. */
  ghost predicate TrustedArgv0(p: Process, host: Host) {
    var argv0 := FirstArg(p.args);
    && NormalizeCommand(argv0) in AGENTS
    && (NormalizeCommand(p.command) in LAUNCHERS || (LooksLikePath(argv0) && host.pathExists(argv0)))
  }

  /** Argument `k` is an agent script run by a script launcher. */
  ghost predicate ScriptArgument(p: Process, host: Host, k: nat) {
    var args := Fields(p.args);
    && FirstPositional(args, k)
    && (NormalizeCommand(p.command) in SCRIPT_LAUNCHERS || NormalizeCommand(args[0]) in SCRIPT_LAUNCHERS)
    && NormalizeCommand(args[k]) in AGENTS
    && (LooksLikePath(args[k]) ==> host.pathExists(args[k]))
  }

  lemma {:induction false} ScanFindsFirstPositional(args: seq<string>, host: Host, k: nat)
    requires FirstPositional(args, k)
    ensures ScanScript(args[1..], host) ==
            if NormalizeCommand(args[k]) in AGENTS && (LooksLikePath(args[k]) ==> host.pathExists(args[k]))
            then Some(NormalizeCommand(args[k])) else None
    decreases k
  {
    var tail := args[1..];
    if k > 1 {
      assert IsFlag(args[1]);
      assert forall j :: 1 <= j < k - 1 ==> tail[j] == args[j + 1];
      ScanFindsFirstPositional(tail, host, k - 1);
    }
  }

  lemma {:induction false} ScanOfFlagsFails(args: seq<string>, host: Host)
    requires forall j :: 0 <= j < |args| ==> IsFlag(args[j])
    ensures ScanScript(args, host) == None
  {
    if args != [] { ScanOfFlagsFails(args[1..], host); }
  }

  lemma {:induction false} FindPositional(args: seq<string>, from: nat) returns (k: nat)
    requires 1 <= from <= |args| && forall j :: 1 <= j < from ==> IsFlag(args[j])
    ensures FirstPositional(args, k) || (forall j :: 1 <= j < |args| ==> IsFlag(args[j]))
    decreases |args| - from
  {
    k := from;
    if from < |args| && IsFlag(args[from]) { k := FindPositional(args, from + 1); }
  }

  /**
   * Exactly when a process is an agent, and which: the command names one; or else a trusted
   * argv0 does; or else the first non-flag argument of a script launcher does.
   */
  lemma InferenceExact(p: Process, host: Host, source: string)
    ensures InferSource(p.command, p.args, host) == Some(source) <==>
            && !IsAppBundle(p.args)
            && source in AGENTS
            && (|| NormalizeCommand(p.command) == source
                || (NormalizeCommand(p.command) !in AGENTS
                    && (|| (TrustedArgv0(p, host) && NormalizeCommand(FirstArg(p.args)) == source)
                        || (!TrustedArgv0(p, host) && exists k: nat ::
                              ScriptArgument(p, host, k) && NormalizeCommand(Fields(p.args)[k]) == source))))
  {
    ScriptExact(p, host, source);
    EmptyIsNoAgent();
    var args := Fields(p.args);
    FieldsNonEmpty(p.args);
    assert args != [] ==> args[0] in args;
    assert FirstArg(p.args) == "" <==> args == [];
  }

  lemma ScriptExact(p: Process, host: Host, source: string)
    ensures InferScript(NormalizeCommand(p.command), Fields(p.args), host) == Some(source) <==>
            exists k: nat :: ScriptArgument(p, host, k) && NormalizeCommand(Fields(p.args)[k]) == source
  {
    var args := Fields(p.args);
    var answer := InferScript(NormalizeCommand(p.command), args, host);
    forall k: nat | ScriptArgument(p, host, k)
      ensures answer == Some(NormalizeCommand(args[k]))
    {
      ScanFindsFirstPositional(args, host, k);
    }
    if answer == Some(source) {
      var k := FindPositional(args, 1);
      if FirstPositional(args, k) {
        ScanFindsFirstPositional(args, host, k);
        assert ScriptArgument(p, host, k);
      } else {
        ScanOfFlagsFails(args[1..], host);
      }
    }
  }

  lemma EmptyIsNoAgent()
    ensures "" !in AGENTS
  {
  }

  lemma {:induction false} FieldsNonEmpty(s: string)
    ensures forall f :: f in Fields(s) ==> f != "" && forall c :: c in f ==> !IsSpace(c)
    decreases |s|
  {
    if s != "" {
      if IsSpace(s[0]) {
        FieldsNonEmpty(s[1..]);
      } else {
        WordHasNoSpace(s);
        FieldsNonEmpty(s[WordLength(s)..]);
      }
    }
  }

  lemma {:induction false} WordHasNoSpace(s: string)
    ensures forall i :: 0 <= i < WordLength(s) ==> !IsSpace(s[i])
  {
    if s != "" && !IsSpace(s[0]) {
      WordHasNoSpace(s[1..]);
      assert forall i :: 1 <= i < WordLength(s) ==> s[i] == s[1..][i - 1];
    }
  }

  /** Arguments after the first non-flag one never change the launcher's answer. */
  lemma LauncherIgnoresTail(commandBase: string, xs: seq<string>, ys: seq<string>, host: Host, k: nat)
    requires FirstPositional(xs, k) && k < |ys| && xs[..k + 1] == ys[..k + 1]
    ensures InferScript(commandBase, xs, host) == InferScript(commandBase, ys, host)
  {
    assert forall j :: 0 <= j <= k ==> xs[j] == xs[..k + 1][j] == ys[j];
    ScanFindsFirstPositional(xs, host, k);
    ScanFindsFirstPositional(ys, host, k);
  }

  // ----- What normalizing does -----

  /** A file name: something, without slashes or quotes. */
  ghost predicate IsName(name: string) {
    name != "" && '/' !in name && '\"' !in name && '\'' !in name
  }

  lemma {:induction false} TrimLeftStops(x: string, y: string)
    requires y != "" && !IsQuote(y[0])
    ensures exists n :: 0 <= n <= |x| && TrimLeft(x + y, IsQuote) == x[n..] + y
    decreases |x|
  {
    if x == "" {
      assert x + y == y;
      assert x[0..] + y == y;
    } else if IsQuote(x[0]) {
      assert (x + y)[1..] == x[1..] + y;
      TrimLeftStops(x[1..], y);
      var n :| 0 <= n <= |x[1..]| && TrimLeft(x[1..] + y, IsQuote) == x[1..][n..] + y;
      assert x[1..][n..] == x[n + 1..];
    } else {
      assert x[0..] + y == x + y;
    }
  }

  lemma {:induction false} NameAfterSlash(dir: string, name: string)
    requires '/' !in name
    ensures AfterLastSlash(dir + "/" + name) == name
    ensures AfterLastSlash(name) == name
  {
    if name != "" {
      var n := |name| - 1;
      NameAfterSlash(dir, name[..n]);
      assert (dir + "/" + name)[..|dir| + 1 + n] == dir + "/" + name[..n];
      assert name == name[..n] + [name[n]];
      assert name[n] in name;
    }
  }

  lemma NameIsItself(name: string)
    requires IsName(name)
    ensures Trim(name, IsQuote) == name && Base(name) == name
  {
    assert name[0] in name && name[|name| - 1] in name;
    NameAfterSlash("", name);
  }

  ghost predicate AllSlashes(s: string) { forall c :: c in s ==> c == '/' }

  /** filepath.Base: the last element, trailing slashes aside; a dot for nothing, a slash for slashes alone. */
  lemma BaseExact(dir: string, name: string, slashes: string)
    requires name != "" && '/' !in name && AllSlashes(slashes)
    ensures Base(dir + "/" + name + slashes) == name
    ensures Base(name + slashes) == name
    ensures Base(slashes) == if slashes == "" then "." else "/"
  {
    var cut := (c: char) => c == '/';
    assert name[|name| - 1] in name;
    assert (dir + "/" + name)[|dir + "/" + name| - 1] == name[|name| - 1];
    TrimRightPads(dir + "/" + name, slashes, cut);
    TrimRightPads(name, slashes, cut);
    NameAfterSlash(dir, name);
    TrimRightPads("", slashes, cut);
    assert "" + slashes == slashes;
  }

  lemma PathTrims(dir: string, name: string)
    requires IsName(name)
    ensures exists d :: Trim(dir + "/" + name, IsQuote) == d + "/" + name
  {
    var y := "/" + name;
    TrimLeftStops(dir, y);
    var n :| 0 <= n <= |dir| && TrimLeft(dir + y, IsQuote) == dir[n..] + y;
    var path := dir[n..] + "/" + name;
    assert dir + "/" + name == dir + y && path == dir[n..] + y;
    assert path[|path| - 1] == name[|name| - 1] && name[|name| - 1] in name;
  }

  lemma PathBase(dir: string, name: string)
    requires IsName(name)
    ensures Base(dir + "/" + name) == name
  {
    var path := dir + "/" + name;
    assert path[|path| - 1] == name[|name| - 1] && name[|name| - 1] in name;
    NameAfterSlash(dir, name);
  }

  /** The directory of a command does not matter. */
  lemma NormalizeIgnoresPath(dir: string, name: string)
    requires IsName(name)
    ensures NormalizeCommand(dir + "/" + name) == ToLower(name)
    ensures NormalizeCommand(name) == ToLower(name)
  {
    NameIsItself(name);
    PathTrims(dir, name);
    var d :| Trim(dir + "/" + name, IsQuote) == d + "/" + name;
    PathBase(d, name);
  }

  /** Nor does its letter case: normalized names have no capital letters, and differ from the original only there. */
  lemma NormalizeLowers(command: string)
    ensures forall c :: c in NormalizeCommand(command) ==> !('A' <= c <= 'Z')
    ensures command != "" ==>
              var base := Base(Trim(command, IsQuote));
              && |NormalizeCommand(command)| == |base|
              && forall i :: 0 <= i < |base| ==>
                   NormalizeCommand(command)[i] == base[i]
                   || ('A' <= base[i] <= 'Z' && NormalizeCommand(command)[i] as int == base[i] as int + 32)
  {
    if command != "" {
      var base := Base(Trim(command, IsQuote));
      forall i | 0 <= i < |base| ensures NormalizeCommand(command)[i] == LowerChar(base[i]) {
      }
    }
  }

  /**
   * A full Unicode lowering agrees with the table here on ASCII, and takes other letters out of
   * ASCII, except U+0130 and the Kelvin sign, which become `i` and `k`.
   */
  ghost predicate LowersLikeUnicode(lower: char -> char) {
    forall c {:trigger lower(c)} ::
      if c as int < 128 then lower(c) == LowerChar(c) else lower(c) as int >= 128 || lower(c) in "ik"
  }

  lemma KnownNames(name: string)
    requires name in AGENTS + LAUNCHERS + SCRIPT_LAUNCHERS
    ensures name != "" && forall c :: c in name ==> IsAlphanumeric(c) && c != 'i' && c != 'k'
  {
  }

  /** A small letter or a digit. */
  ghost predicate IsAlphanumeric(c: char) { 'a' <= c <= 'z' || '0' <= c <= '9' }

  /** Lowering only ASCII recognises exactly the names that any such lowering recognises. */
  lemma LoweringDecides(lower: char -> char, s: string, name: string)
    requires LowersLikeUnicode(lower) && name in AGENTS + LAUNCHERS + SCRIPT_LAUNCHERS
    ensures seq(|s|, i requires 0 <= i < |s| => lower(s[i])) == name <==> ToLower(s) == name
  {
    KnownNames(name);
    var full := seq(|s|, i requires 0 <= i < |s| => lower(s[i]));
    if |s| == |name| {
      forall i | 0 <= i < |s| ensures full[i] == name[i] <==> ToLower(s)[i] == name[i] {
        assert name[i] in name && full[i] == lower(s[i]);
      }
    }
  }

  /** So a process whose command is any path to an agent is that agent's session. */
  lemma AgentPathRecognised(p: Process, host: Host, dir: string, name: string)
    requires IsName(name) && ToLower(name) in AGENTS && !IsAppBundle(p.args)
    requires p.command == dir + "/" + name || p.command == name
    ensures InferSource(p.command, p.args, host) == Some(ToLower(name))
  {
    NormalizeIgnoresPath(dir, name);
  }

  ghost predicate IsWord(w: string) {
    w != "" && forall c :: c in w ==> !IsSpace(c)
  }

  lemma {:induction false} WordThenSpace(w: string, rest: string)
    requires forall c :: c in w ==> !IsSpace(c)
    ensures WordLength(w) == |w| && WordLength(w + " " + rest) == |w|
  {
    if w != "" {
      assert w[0] in w;
      WordThenSpace(w[1..], rest);
      assert (w + " " + rest)[1..] == w[1..] + " " + rest;
    }
  }

  /** Splitting an argument string gives back the arguments that were joined with spaces. */
  lemma {:induction false} FieldsInvertJoin(ws: seq<string>)
    requires forall w :: w in ws ==> IsWord(w)
    ensures Fields(Join(ws, ' ')) == ws
  {
    if ws != [] {
      var w := ws[0];
      assert w in ws && w[0] in w;
      if |ws| == 1 {
        WordThenSpace(w, "");
        assert w[..|w|] == w && w[|w|..] == "";
      } else {
        var rest := Join(ws[1..], ' ');
        var s := w + " " + rest;
        WordThenSpace(w, rest);
        assert s == Join(ws, ' ') && s[0] == w[0];
        assert s[..|w|] == w && s[|w|..] == " " + rest;
        assert (" " + rest)[1..] == rest;
        FieldsInvertJoin(ws[1..]);
        assert Fields(" " + rest) == Fields(rest);
      }
    }
  }

  // ----- The words of inference, by their characters -----

  /** A flag begins with a dash, a path has a slash of either kind, and an application bundle shows in the arguments. */
  lemma WordsExact(text: string)
    ensures IsFlag(text) <==> text != "" && text[0] == '-'
    ensures LooksLikePath(text) <==> '/' in text || '\\' in text
    ensures IsAppBundle(text) <==> exists before, after :: text == before + ".app/Contents/" + after
  {
    ContainsChar(text, '/');
    ContainsChar(text, '\\');
    ContainsIsPart(text, ".app/Contents/");
  }

  /** A lower-case name without a slash or a quote. */
  ghost predicate IsPlain(name: string) {
    IsName(name) && forall c :: c in name ==> !('A' <= c <= 'Z')
  }

  lemma PlainIsNormal(name: string)
    requires IsPlain(name)
    ensures NormalizeCommand(name) == name
  {
    NormalizeIgnoresPath("", name);
    assert forall i :: 0 <= i < |name| ==> name[i] in name;
    assert ToLower(name) == name;
  }

  lemma NamesArePlain(name: string)
    requires name in AGENTS + LAUNCHERS
    ensures IsPlain(name) && IsWord(name)
  {
    KnownNames(name);
    assert forall c :: IsAlphanumeric(c) ==> !IsSpace(c);
  }

  /** Quotes round a name do not matter. */
  lemma NormalizeIgnoresQuotes(before: string, name: string, after: string)
    requires IsName(name) && (forall c :: c in before + after ==> c in "\"'")
    ensures NormalizeCommand(before + name + after) == ToLower(name)
  {
    NameIsItself(name);
    assert forall c :: c in before || c in after ==> c in before + after;
    assert Trimmed(name, IsQuote) by { assert name[0] in name && name[|name| - 1] in name; }
    TrimRemovesPadding(before, name, after, IsQuote);
  }

  const AGENT_NAMES := ["codex", "claude", "opencode", "hermes", "openclaw", "nanoclaw"]
  const SCRIPT_RUNNERS := ["bun", "deno", "node", "npx", "python", "python3"]
  const SHELLS := ["bash", "sh", "zsh"]

  lemma TablesAre(name: string)
    ensures name in AGENTS <==> name in AGENT_NAMES
    ensures name in SCRIPT_LAUNCHERS <==> name in SCRIPT_RUNNERS
    ensures name in LAUNCHERS <==> name in SCRIPT_RUNNERS || name in SHELLS
    ensures name in SCRIPT_RUNNERS || name in SHELLS ==> name !in AGENT_NAMES
    ensures name in SCRIPT_RUNNERS ==> name !in SHELLS
  {
  }

  ghost predicate Words(ws: seq<string>) {
    forall w :: w in ws ==> IsWord(w)
  }

  /** A command line whose first word is `first`. */
  lemma LineStarts(first: string, rest: seq<string>)
    requires IsWord(first) && Words(rest)
    ensures Fields(Join([first] + rest, ' ')) == [first] + rest
    ensures FirstArg(Join([first] + rest, ' ')) == first
  {
    FieldsInvertJoin([first] + rest);
  }

  /**
   * A script runner with any flags and then an agent's name, as in `node -e claude`, is that
   * agent, whatever follows; a script given by its path has to exist.
   */
  lemma RunnerFindsAgent(runner: string, flags: seq<string>, script: string, tail: seq<string>, agent: string,
                         host: Host)
    requires runner in SCRIPT_RUNNERS && agent in AGENT_NAMES
    requires Words(flags) && (forall f :: f in flags ==> f[0] == '-') && Words(tail)
    requires IsWord(script) && script[0] != '-' && NormalizeCommand(script) == agent
    requires !IsAppBundle(Join([runner] + (flags + [script] + tail), ' '))
    ensures InferSource(runner, Join([runner] + (flags + [script] + tail), ' '), host)
            == if '/' in script || '\\' in script then (if host.pathExists(script) then Some(agent) else None)
               else Some(agent)
  {
    var rest := flags + [script] + tail;
    var args := [runner] + rest;
    TablesAre(runner);
    TablesAre(agent);
    NamesArePlain(runner);
    PlainIsNormal(runner);
    LineStarts(runner, rest);
    var k := 1 + |flags|;
    forall j | 1 <= j < k ensures IsFlag(args[j]) {
      assert args[j] == flags[j - 1] && flags[j - 1] in flags;
      WordsExact(args[j]);
    }
    WordsExact(script);
    assert args[k] == script && FirstPositional(args, k);
    ScanFindsFirstPositional(args, host, k);
  }

  /** A shell's arguments are not looked at: `bash -c claude` is nobody's. */
  lemma ShellIgnoresArguments(shell: string, rest: seq<string>, host: Host)
    requires shell in SHELLS && Words(rest)
    ensures InferSource(shell, Join([shell] + rest, ' '), host) == None
  {
    TablesAre(shell);
    NamesArePlain(shell);
    PlainIsNormal(shell);
    LineStarts(shell, rest);
  }

  /** Any launcher, shells included, that runs under an agent's own name is that agent. */
  lemma LauncherUnderAgentName(launcher: string, agent: string, rest: seq<string>, host: Host)
    requires (launcher in SCRIPT_RUNNERS || launcher in SHELLS) && agent in AGENT_NAMES && Words(rest)
    requires !IsAppBundle(Join([agent] + rest, ' '))
    ensures InferSource(launcher, Join([agent] + rest, ' '), host) == Some(agent)
  {
    TablesAre(launcher);
    TablesAre(agent);
    NamesArePlain(launcher);
    NamesArePlain(agent);
    PlainIsNormal(launcher);
    PlainIsNormal(agent);
    LineStarts(agent, rest);
    EmptyIsNoAgent();
  }

  /** Nothing but the six agents is ever inferred. */
  lemma OnlyKnownAgents(command: string, args: string, host: Host)
    ensures InferSource(command, args, host).Some? ==> InferSource(command, args, host).value in AGENT_NAMES
  {
    EnvOfIsSound(host);
    var env := EnvOf(host);
    if env.sourceOf(command, args).Some? { TablesAre(env.sourceOf(command, args).value); }
  }

  // ----- Identifiers -----

  const MARK := ":process:"

  function SessionId(source: string, pid: int): string {
    source + MARK + Itoa(pid)
  }

  const EDGE_PREFIX := "process:spawned_by:"

  function EdgeId(child: string, parent: string): string {
    EDGE_PREFIX + child + "->" + parent
  }

  lemma AgentShape(source: string)
    requires source in AGENTS
    ensures ':' !in source && '>' !in source && source != ""
  {
  }

  lemma SessionIdShape(source: string, pid: int)
    requires source in AGENTS
    ensures SessionId(source, pid) != "" && '>' !in SessionId(source, pid)
  {
    AgentShape(source);
    ItoaShape(pid);
  }

  lemma SessionIdParts(source: string, pid: int)
    ensures SessionId(source, pid) == source + [':'] + ("process:" + Itoa(pid))
  {
    assert MARK == [':'] + "process:";
  }

  lemma TailInjective(prefix: string, x: string, y: string)
    requires prefix + x == prefix + y
    ensures x == y
  {
    assert x == (prefix + x)[|prefix|..] == (prefix + y)[|prefix|..] == y;
  }

  /** The session identifier determines the agent and the process. */
  lemma SessionIdInjective(s: string, p: int, t: string, q: int)
    requires s in AGENTS && t in AGENTS && SessionId(s, p) == SessionId(t, q)
    ensures s == t && p == q
  {
    AgentShape(s);
    AgentShape(t);
    SessionIdParts(s, p);
    SessionIdParts(t, q);
    SeparatorSplits(s, "process:" + Itoa(p), t, "process:" + Itoa(q), ':');
    TailInjective("process:", Itoa(p), Itoa(q));
    ItoaInjective(p, q);
  }

  /** An arrow identifier determines both ends when the left ends contain no `>`. */
  lemma ArrowInjective(prefix: string, a: string, x: string, b: string, y: string)
    requires '>' !in a && '>' !in b
    requires prefix + a + "->" + x == prefix + b + "->" + y
    ensures a == b && x == y
  {
    var n := |prefix|;
    assert "->" == "-" + ['>'];
    assert (prefix + a + "->" + x)[n..] == (a + "-") + ['>'] + x;
    assert (prefix + b + "->" + y)[n..] == (b + "-") + ['>'] + y;
    SeparatorSplits(a + "-", x, b + "-", y, '>');
    assert a == (a + "-")[..|a|] && b == (b + "-")[..|b|];
  }

  lemma EdgeIdInjective(c: string, p: string, d: string, q: string)
    requires '>' !in c && '>' !in d && EdgeId(c, p) == EdgeId(d, q)
    ensures c == d && p == q
  {
    ArrowInjective(EDGE_PREFIX, c, p, d, q);
  }

  /** The two lookups a reconciliation makes: which agent a command line is, and where a process runs. */
  datatype Env = Env(sourceOf: (string, string) -> Option<string>, cwdOf: int -> Option<string>)

  /** Inference on a given host. */
  function EnvOf(host: Host): Env {
    Env((command, args) => InferSource(command, args, host), host.cwdOf)
  }

  /** Every source named is a known agent. */
  ghost predicate Sound(env: Env) {
    forall command, args :: env.sourceOf(command, args).Some? ==> env.sourceOf(command, args).value in AGENTS
  }

  lemma EnvOfIsSound(host: Host)
    ensures Sound(EnvOf(host))
  {
    forall command, args | InferSource(command, args, host).Some?
      ensures InferSource(command, args, host).value in AGENTS
    {
      InferenceExact(Process("", 0, 0, command, args, ""), host, InferSource(command, args, host).value);
    }
  }

  /** The session InferAgentProcessSession builds once the source is known. */
  function SessionFor(p: Process, source: string, observedAt: Time): Session {
    var id := SessionId(source, p.pid);
    Session(
      id := id,
      kind := "session",
      adapter := "",
      title := source,
      summary := "detected running process",
      status := STATUS_WORKING,
      attention := "",
      statusDetail := "process active: " + source,
      confidence := CONFIDENCE_LOW,
      source := source,
      cwd := p.cwd,
      workspaceRoots := if p.cwd == "" then [] else [p.cwd],
      startedAt := observedAt,
      lastActivityAt := observedAt,
      endedAt := None,
      parentId := "",
      rootId := id,
      runtimeIds := [p.id],
      workspaceIds := if p.cwd == "" then [] else ["workspace:" + p.cwd],
      process := Some(ProcessMeta(p.pid, p.ppid, p.command, p.args, true)))
  }
}
