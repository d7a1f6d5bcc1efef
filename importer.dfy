/**
 * The OpenVPN profile importer (`VpnModel::processOpenVpnProvisioningFile`).
 * It reads a profile line by line. Comment lines are skipped. `<marker>` …
 * `</marker>` blocks are written out to files named by a digest of their
 * content. Directives that the VPN daemon understands become settings, and
 * every other line is collected into an extra configuration file.
 *
 * The file system and the digest are parameters: `Env.digest` stands for
 * the hexadecimal SHA-1 of a text, `Env.dirOk` for whether the output
 * directory exists or can be created, and `Env.unwritable` for the output
 * files that cannot be opened for writing.
 */
module Importer {
  import opened Text
  import opened Variants

  const OutputPath: string := "/home/nemo/.local/share/system/vpn-provisioning"

  datatype Env = Env(profileDir: string, digest: string -> string, dirOk: bool, unwritable: set<string>)

  /**
   * The importer's working state: the open block's marker ("" when none is
   * open) and content, the extra options, the settings, and the files
   * written so far (path to content).
   */
  datatype ImportState = ImportState(
    marker: string, content: string, extra: seq<string>,
    rv: map<string, string>, files: map<string, string>)

  const Initial: ImportState := ImportState("", "", [], map[], map[])

  // ------------------------------------------------------- line patterns

  /** Number of leading white-space characters. */
  function LeadingSpace(s: string): (n: nat)
    ensures n <= |s|
    ensures forall i :: 0 <= i < n ==> IsSpace(s[i])
    ensures n < |s| ==> !IsSpace(s[n])
  {
    if s == [] || !IsSpace(s[0]) then 0 else 1 + LeadingSpace(s[1..])
  }

  /** `^\s*(?:\#|\;)` */
  predicate IsComment(line: string) {
    var i := LeadingSpace(line);
    i < |line| && (line[i] == '#' || line[i] == ';')
  }

  /** Number of leading characters that are neither `/` nor `>`. */
  function MarkerLength(s: string): (n: nat)
    ensures n <= |s|
    ensures forall i :: 0 <= i < n ==> s[i] != '/' && s[i] != '>'
    ensures n < |s| ==> s[n] == '/' || s[n] == '>'
  {
    if s == [] || s[0] == '/' || s[0] == '>' then 0 else 1 + MarkerLength(s[1..])
  }

  /**
   * The marker captured by `^\s*<([^\/>]+)>` (when `closing` is false) or by
   * `^\s*<\/([^\/>]+)>` (when it is true).
   */
  function Tag(line: string, closing: bool): (r: Option<string>)
    ensures r.Some? ==> r.value != [] && '/' !in r.value && '>' !in r.value
  {
    var rest := line[LeadingSpace(line)..];
    var open := if closing then "</" else "<";
    if !StartsWith(rest, open) then None
    else
      var body := rest[|open|..];
      var n := MarkerLength(body);
      if 0 < n < |body| && body[n] == '>' then Some(body[..n]) else None
  }

  function OpeningTag(line: string): Option<string> { Tag(line, false) }

  function ClosingTag(line: string): Option<string> { Tag(line, true) }

  // ------------------------------------------------------------ helpers

  /** `normaliseProtocol`: `tcp` is OpenVPN's undocumented spelling of `tcp-client`. */
  function NormaliseProtocol(proto: string): (r: string)
    ensures proto == "tcp" ==> r == "tcp-client"
    ensures proto != "tcp" ==> r == proto
  {
    if proto == "tcp" then "tcp-client" else proto
  }

  /** A path relative to the profile's directory, or the path itself when it is absolute. */
  function Resolve(file: string, dir: string): (r: string)
    ensures StartsWith(file, "/") ==> r == file
  {
    if StartsWith(file, "/") then file else dir + "/" + file
  }

  /** The path of an output file named `name`. */
  function OutputFile(name: string): string {
    OutputPath + "/" + name
  }

  /** The lines of `s` run together, as the digest of the extra options sees them. */
  function Concat(s: seq<string>): string {
    if s == [] then "" else Concat(s[..|s| - 1]) + s[|s| - 1]
  }

  /** The lines of `s`, each followed by a line break, as the configuration file holds them. */
  function TextLines(s: seq<string>): string {
    if s == [] then "" else TextLines(s[..|s| - 1]) + s[|s| - 1] + "\n"
  }

  /** The setting that an embedded `ca`, `cert` or `key` block fills in. */
  function FileSetting(marker: string): (r: Option<string>)
    ensures r.Some? <==> marker == "ca" || marker == "cert" || marker == "key"
    ensures r.Some? ==> StartsWith(r.value, "OpenVPN.") && r.value != "OpenVPN.ConfigFile"
  {
    if marker == "ca" then Some("OpenVPN.CACert")
    else if marker == "cert" then Some("OpenVPN.Cert")
    else if marker == "key" then Some("OpenVPN.Key")
    else None
  }

  /** The file argument of `ca`, `cert`, `key` and `auth-user-pass`: the first argument. */
  function FileArgument(arguments: seq<string>): (r: string)
    requires arguments != []
    ensures r == arguments[0]
  {
    arguments[0]
  }

  /**
   * The file argument as the source reads it: the second argument, which a
   * line with a single argument does not have (`None` marks the read past
   * the end of the list).
   */
  function FileArgumentAsWritten(arguments: seq<string>): (r: Option<string>)
    requires arguments != []
    ensures r.Some? <==> |arguments| >= 2
  {
    if |arguments| >= 2 then Some(arguments[1]) else None
  }

  /** A profile line such as `ca ca.crt` makes the source read past the end of its arguments. */
  lemma SoleFileArgumentOutOfRange(f: string)
    ensures FileArgumentAsWritten([f]).None?
    ensures FileArgument([f]) == f
  {
  }

  /** The settings a directive with its own setting name fills in from its joined arguments. */
  function JoinedSetting(directive: string): (r: Option<string>)
  {
    if directive == "mtu" || directive == "tun-mtu" then Some("OpenVPN.MTU")
    else if directive == "ns-cert-type" then Some("OpenVPN.NSCertType")
    else if directive == "tls-remote" then Some("OpenVPN.TLSRemote")
    else if directive == "cipher" then Some("OpenVPN.Cipher")
    else if directive == "auth" then Some("OpenVPN.Auth")
    else if directive == "remote-cert-tls" then Some("OpenVPN.RemoteCertTls")
    else None
  }

  /** Every directive the importer turns into a setting. */
  predicate Known(directive: string) {
    directive in {"remote", "ca", "cert", "key", "auth-user-pass", "proto", "port",
                  "askpass", "auth-nocache", "comp-lzo"}
    || JoinedSetting(directive).Some?
  }

  // --------------------------------------------------------------- steps

  /** What a directive other than `remote` does: set one setting, nothing, or pass its line through. */
  datatype Effect = Set(key: string, value: string) | Ignore | PassThrough

  /** The effect of `directive` with `arguments` on the settings `rv`. */
  function DirectiveEffect(directive: string, arguments: seq<string>, rv: map<string, string>, profileDir: string): (r: Effect)
    ensures r.Set? ==> StartsWith(r.key, "OpenVPN.") && r.key != "OpenVPN.ConfigFile"
    ensures r.PassThrough? <==> !Known(directive)
  {
    var joined := Join(arguments, " ");
    if directive == "ca" || directive == "cert" || directive == "key" || directive == "auth-user-pass" then
      if arguments != [] then
        var file := Resolve(FileArgument(arguments), profileDir);
        if directive == "ca" then Set("OpenVPN.CACert", file)
        else if directive == "cert" then Set("OpenVPN.Cert", file)
        else if directive == "key" then Set("OpenVPN.Key", file)
        else Set("OpenVPN.AuthUserPass", file)
      else if directive == "auth-user-pass" then Set("OpenVPN.AuthUserPass", "-")
      else Ignore
    else if directive == "proto" then
      if arguments != [] && "OpenVPN.Proto" !in rv then Set("OpenVPN.Proto", NormaliseProtocol(joined)) else Ignore
    else if directive == "port" then
      if arguments != [] && "OpenVPN.Port" !in rv then Set("OpenVPN.Port", joined) else Ignore
    else if directive == "askpass" then Set("OpenVPN.AskPass", joined)
    else if directive == "auth-nocache" then Set("OpenVPN.AuthNoCache", "true")
    else if directive == "comp-lzo" then Set("OpenVPN.CompLZO", if arguments != [] then joined else "adaptive")
    else if JoinedSetting(directive).Some? then
      if arguments != [] then Set(JoinedSetting(directive).value, joined) else Ignore
    else if directive == "remote" then Ignore
    else PassThrough
  }

  /** A directive line, read while no block is open. */
  function Directive(st: ImportState, line: string, env: Env): ImportState {
    var tokens := Tokens(line);
    if tokens == [] then st
    else if tokens[0] == "remote" then
      var arguments := tokens[1..];
      if "Host" in st.rv then st.(extra := st.extra + [line])
      else
        var rv1 := if |arguments| > 0 then st.rv["Host" := arguments[0]] else st.rv;
        var rv2 := if |arguments| > 1 then rv1["OpenVPN.Port" := arguments[1]] else rv1;
        var rv3 := if |arguments| > 2 then rv2["OpenVPN.Proto" := NormaliseProtocol(arguments[2])] else rv2;
        st.(rv := rv3)
    else
      match DirectiveEffect(tokens[0], tokens[1..], st.rv, env.profileDir)
      case Set(key, value) => st.(rv := st.rv[key := value])
      case Ignore => st
      case PassThrough => st.(extra := st.extra + [line])
  }

  /** A closing tag with marker `m`: the block's content is stored, and the block is closed. */
  function CloseBlock(st: ImportState, m: string, env: Env): ImportState {
    var closed := st.(marker := "", content := "");
    if m != st.marker || st.content == "" then closed
    else if m == "connection" then
      closed.(extra := st.extra + ["<connection>\n" + st.content + "</connection>"])
    else if !env.dirOk then closed
    else
      var path := OutputFile(env.digest(st.content) + "." + m);
      if path in env.unwritable then closed
      else
        var written := closed.(files := st.files[path := st.content]);
        match FileSetting(m)
        case Some(setting) => written.(rv := st.rv[setting := path])
        case None => written.(extra := st.extra + [m + " " + path])
  }

  /** One profile line. */
  function Step(st: ImportState, line: string, env: Env): ImportState {
    if IsComment(line) then st
    else if OpeningTag(line).Some? then st.(marker := OpeningTag(line).value)
    else if ClosingTag(line).Some? then CloseBlock(st, ClosingTag(line).value, env)
    else if st.marker != "" then st.(content := st.content + line + "\n")
    else Directive(st, line, env)
  }

  /** The state after the profile lines `lines`. */
  function Run(lines: seq<string>, env: Env): ImportState {
    if lines == [] then Initial else Step(Run(lines[..|lines| - 1], env), lines[|lines| - 1], env)
  }

  /** After the last line: the extra options, if any, are written to a configuration file. */
  function Finish(st: ImportState, env: Env): ImportState {
    if st.extra == [] || !env.dirOk then st
    else
      var path := OutputFile(env.digest(Concat(st.extra)) + ".conf");
      if path in env.unwritable then st
      else st.(rv := st.rv["OpenVPN.ConfigFile" := path], files := st.files[path := TextLines(st.extra)])
  }

  function Import(lines: seq<string>, env: Env): ImportState {
    Finish(Run(lines, env), env)
  }

  lemma RunStep(lines: seq<string>, i: nat, env: Env)
    requires i < |lines|
    ensures Run(lines[..i + 1], env) == Step(Run(lines[..i], env), lines[i], env)
  {
    assert lines[..i + 1][..i] == lines[..i];
  }

  /** `processOpenVpnProvisioningFile`: the settings, and the files written on the way. */
  method ProcessProvisioningFile(lines: seq<string>, env: Env) returns (rv: map<string, string>, files: map<string, string>)
    ensures rv == Import(lines, env).rv && files == Import(lines, env).files
  {
    var marker, content, extra := "", "", [];
    rv, files := map[], map[];
    var i := 0;
    while i < |lines|
      invariant 0 <= i <= |lines|
      invariant ImportState(marker, content, extra, rv, files) == Run(lines[..i], env)
    {
      var line := lines[i];
      ghost var before := ImportState(marker, content, extra, rv, files);
      if IsComment(line) {
      } else if OpeningTag(line).Some? {
        marker := OpeningTag(line).value;
      } else if ClosingTag(line).Some? {
        var st := CloseBlock(ImportState(marker, content, extra, rv, files), ClosingTag(line).value, env);
        marker, content, extra, rv, files := st.marker, st.content, st.extra, st.rv, st.files;
      } else if marker != "" {
        content := content + line + "\n";
      } else {
        var st := Directive(ImportState(marker, content, extra, rv, files), line, env);
        marker, content, extra, rv, files := st.marker, st.content, st.extra, st.rv, st.files;
      }
      assert ImportState(marker, content, extra, rv, files) == Step(before, line, env);
      RunStep(lines, i, env);
      i := i + 1;
    }
    assert lines[..i] == lines;
    if extra != [] && env.dirOk {
      var path := OutputFile(env.digest(Concat(extra)) + ".conf");
      if path !in env.unwritable {
        rv := rv["OpenVPN.ConfigFile" := path];
        files := files[path := TextLines(extra)];
      }
    }
  }

  // ------------------------------------------------------------- lemmas

  /** A line read while no block is open that is neither a comment nor a tag: a directive line. */
  predicate PlainLine(st: ImportState, line: string) {
    !IsComment(line) && OpeningTag(line).None? && ClosingTag(line).None? && st.marker == ""
  }

  /** Comment lines change nothing, inside a block or outside one. */
  lemma CommentChangesNothing(st: ImportState, line: string, env: Env)
    requires IsComment(line)
    ensures Step(st, line, env) == st
  {
  }

  /** Removing a comment line from a profile does not change what it imports. */
  lemma {:induction false} CommentsIgnored(a: seq<string>, c: string, b: seq<string>, env: Env)
    requires IsComment(c)
    ensures Run(a + [c] + b, env) == Run(a + b, env)
    ensures Import(a + [c] + b, env) == Import(a + b, env)
    decreases |b|
  {
    var with, without := a + [c] + b, a + b;
    if b == [] {
      assert with[..|with| - 1] == a && with[|with| - 1] == c;
      assert without == a;
    } else {
      var init, last := b[..|b| - 1], b[|b| - 1];
      CommentsIgnored(a, c, init, env);
      assert with[..|with| - 1] == a + [c] + init && with[|with| - 1] == last;
      assert without[..|without| - 1] == a + init && without[|without| - 1] == last;
      assert Run(with, env) == Step(Run(a + [c] + init, env), last, env);
      assert Run(without, env) == Step(Run(a + init, env), last, env);
    }
  }

  /** The first `remote` with arguments sets the host, and the port and protocol when given. */
  lemma FirstRemote(st: ImportState, line: string, env: Env)
    requires PlainLine(st, line) && |Tokens(line)| >= 2 && Tokens(line)[0] == "remote"
    requires "Host" !in st.rv
    ensures var r, arguments := Step(st, line, env), Tokens(line)[1..];
      && "Host" in r.rv && r.rv["Host"] == arguments[0]
      && (|arguments| > 1 ==> "OpenVPN.Port" in r.rv && r.rv["OpenVPN.Port"] == arguments[1])
      && (|arguments| > 2 ==> "OpenVPN.Proto" in r.rv && r.rv["OpenVPN.Proto"] == NormaliseProtocol(arguments[2]))
      && r.extra == st.extra
  {
  }

  /** Once a host is set, a `remote` line goes to the extra options verbatim. */
  lemma LaterRemote(st: ImportState, line: string, env: Env)
    requires PlainLine(st, line) && Tokens(line) != [] && Tokens(line)[0] == "remote"
    requires "Host" in st.rv
    ensures Step(st, line, env) == st.(extra := st.extra + [line])
  {
  }

  /** `proto` and `port` never overwrite a protocol or port already set. */
  lemma ProtoPortKeepEarlier(st: ImportState, line: string, env: Env)
    requires PlainLine(st, line) && Tokens(line) != []
    requires (Tokens(line)[0] == "proto" && "OpenVPN.Proto" in st.rv)
          || (Tokens(line)[0] == "port" && "OpenVPN.Port" in st.rv)
    ensures Step(st, line, env) == st
  {
  }

  /** `proto tcp` is stored as `tcp-client`. */
  lemma ProtoTcp(st: ImportState, line: string, env: Env)
    requires PlainLine(st, line) && Tokens(line) == ["proto", "tcp"] && "OpenVPN.Proto" !in st.rv
    ensures Step(st, line, env) == st.(rv := st.rv["OpenVPN.Proto" := "tcp-client"])
  {
    assert Tokens(line)[1..] == ["tcp"];
  }

  /** The values that directives without arguments stand for. */
  lemma DirectiveDefaults(st: ImportState, line: string, env: Env)
    requires PlainLine(st, line)
    ensures Tokens(line) == ["auth-user-pass"] ==>
      Step(st, line, env) == st.(rv := st.rv["OpenVPN.AuthUserPass" := "-"])
    ensures Tokens(line) == ["comp-lzo"] ==>
      Step(st, line, env) == st.(rv := st.rv["OpenVPN.CompLZO" := "adaptive"])
    ensures Tokens(line) == ["askpass"] ==>
      Step(st, line, env) == st.(rv := st.rv["OpenVPN.AskPass" := ""])
    ensures Tokens(line) != [] && Tokens(line)[0] == "auth-nocache" ==>
      Step(st, line, env) == st.(rv := st.rv["OpenVPN.AuthNoCache" := "true"])
  {
  }

  /** `ca`, `cert`, `key` and `auth-user-pass` store their first argument, resolved against the profile's directory. */
  lemma FileDirective(st: ImportState, line: string, env: Env)
    requires PlainLine(st, line) && |Tokens(line)| >= 2
    requires Tokens(line)[0] in {"ca", "cert", "key", "auth-user-pass"}
    ensures var d, file := Tokens(line)[0], Resolve(Tokens(line)[1], env.profileDir);
      Step(st, line, env) == st.(rv := st.rv[
        (if d == "ca" then "OpenVPN.CACert" else if d == "cert" then "OpenVPN.Cert"
         else if d == "key" then "OpenVPN.Key" else "OpenVPN.AuthUserPass") := file])
  {
  }

  /** A directive the importer does not know goes to the extra options verbatim. */
  lemma UnknownDirective(st: ImportState, line: string, env: Env)
    requires PlainLine(st, line) && Tokens(line) != [] && !Known(Tokens(line)[0])
    ensures Step(st, line, env) == st.(extra := st.extra + [line])
  {
  }

  /** Inside a block, every line that is neither a comment nor a tag is content. */
  lemma BlockContent(st: ImportState, line: string, env: Env)
    requires !IsComment(line) && OpeningTag(line).None? && ClosingTag(line).None? && st.marker != ""
    ensures Step(st, line, env) == st.(content := st.content + line + "\n")
  {
  }

  /** A closing tag for another marker, or for an empty block, only closes the block. */
  lemma CloseWithoutEffect(st: ImportState, line: string, env: Env)
    requires !IsComment(line) && OpeningTag(line).None? && ClosingTag(line).Some?
    requires ClosingTag(line).value != st.marker || st.content == ""
    ensures Step(st, line, env) == st.(marker := "", content := "")
  {
  }

  /** A `connection` block passes through to the extra options. */
  lemma ConnectionBlock(st: ImportState, line: string, env: Env)
    requires !IsComment(line) && OpeningTag(line).None? && ClosingTag(line) == Some("connection")
    requires st.marker == "connection" && st.content != ""
    ensures Step(st, line, env)
      == st.(marker := "", content := "", extra := st.extra + ["<connection>\n" + st.content + "</connection>"])
  {
  }

  /**
   * Any other block is written to a file named by its digest and marker;
   * `ca`, `cert` and `key` become settings, other markers an extra option.
   */
  lemma EmbeddedBlock(st: ImportState, line: string, env: Env)
    requires !IsComment(line) && OpeningTag(line).None? && ClosingTag(line) == Some(st.marker)
    requires st.marker != "connection" && st.content != ""
    requires env.dirOk && OutputFile(env.digest(st.content) + "." + st.marker) !in env.unwritable
    ensures var r, path := Step(st, line, env), OutputFile(env.digest(st.content) + "." + st.marker);
      && r.marker == "" && r.content == ""
      && r.files == st.files[path := st.content]
      && (FileSetting(st.marker).Some? ==> r.rv == st.rv[FileSetting(st.marker).value := path] && r.extra == st.extra)
      && (FileSetting(st.marker).None? ==> r.rv == st.rv && r.extra == st.extra + [st.marker + " " + path])
  {
  }

  /** `k` is in both settings maps or in neither, with the same value. */
  predicate SameAt(before: map<string, string>, after: map<string, string>, k: string) {
    (k in before <==> k in after) && (k in before ==> after[k] == before[k])
  }

  /** Closing a block only writes the settings of embedded files. */
  lemma CloseBlockKeeps(st: ImportState, m: string, env: Env, k: string)
    requires !StartsWith(k, "OpenVPN.") || k == "OpenVPN.ConfigFile"
    ensures SameAt(st.rv, CloseBlock(st, m, env).rv, k)
  {
    var r := CloseBlock(st, m, env);
    if r.rv != st.rv {
      var setting := FileSetting(m).value;
      assert r.rv == st.rv[setting := r.rv[setting]];
      assert setting != k;
    }
  }

  /** Directives write the host only while it is unset, and never the configuration file. */
  lemma DirectiveKeeps(st: ImportState, line: string, env: Env, k: string)
    requires (k == "Host" && "Host" in st.rv) || k == "OpenVPN.ConfigFile"
    ensures SameAt(st.rv, Directive(st, line, env).rv, k)
  {
    var tokens := Tokens(line);
    if tokens != [] && tokens[0] != "remote" {
      var e := DirectiveEffect(tokens[0], tokens[1..], st.rv, env.profileDir);
      if e.Set? {
        assert Directive(st, line, env).rv == st.rv[e.key := e.value];
        assert e.key != k;
      }
    }
  }

  /** No line changes a host once it is set, and no line sets the configuration file. */
  lemma StepKeeps(st: ImportState, line: string, env: Env, k: string)
    requires (k == "Host" && "Host" in st.rv) || k == "OpenVPN.ConfigFile"
    ensures SameAt(st.rv, Step(st, line, env).rv, k)
  {
    if IsComment(line) || OpeningTag(line).Some? {
    } else if ClosingTag(line).Some? {
      CloseBlockKeeps(st, ClosingTag(line).value, env, k);
    } else if st.marker == "" {
      DirectiveKeeps(st, line, env, k);
    }
  }

  lemma RunAppend(a: seq<string>, line: string, env: Env)
    ensures Run(a + [line], env) == Step(Run(a, env), line, env)
  {
    assert (a + [line])[..|a|] == a;
  }

  /** The host that the first `remote` sets is the one imported, whatever follows. */
  lemma {:induction false} HostNeverChanges(a: seq<string>, b: seq<string>, env: Env)
    requires "Host" in Run(a, env).rv
    ensures SameAt(Run(a, env).rv, Run(a + b, env).rv, "Host")
    decreases |b|
  {
    if b == [] {
      assert a + b == a;
    } else {
      var init, last := b[..|b| - 1], b[|b| - 1];
      HostNeverChanges(a, init, env);
      assert a + b == (a + init) + [last];
      RunAppend(a + init, last, env);
      StepKeeps(Run(a + init, env), last, env, "Host");
    }
  }

  /** The imported host is the one set by the first `remote` line that carried arguments. */
  lemma ImportKeepsHost(a: seq<string>, b: seq<string>, env: Env)
    requires "Host" in Run(a, env).rv
    ensures "Host" in Import(a + b, env).rv && Import(a + b, env).rv["Host"] == Run(a, env).rv["Host"]
  {
    HostNeverChanges(a, b, env);
  }

  /** No line sets the configuration file: only the end of the profile does. */
  lemma {:induction false} NoConfigFileWhileReading(lines: seq<string>, env: Env)
    ensures "OpenVPN.ConfigFile" !in Run(lines, env).rv
  {
    if lines != [] {
      NoConfigFileWhileReading(lines[..|lines| - 1], env);
      StepKeeps(Run(lines[..|lines| - 1], env), lines[|lines| - 1], env, "OpenVPN.ConfigFile");
    }
  }

  /**
   * The configuration file is set exactly when there are extra options and
   * their file could be written; it then holds the options one per line.
   */
  lemma ConfigFileOnlyWithExtras(lines: seq<string>, env: Env)
    ensures var st := Run(lines, env);
      var path := OutputFile(env.digest(Concat(st.extra)) + ".conf");
      && ("OpenVPN.ConfigFile" in Import(lines, env).rv <==> st.extra != [] && env.dirOk && path !in env.unwritable)
      && ("OpenVPN.ConfigFile" in Import(lines, env).rv ==>
            Import(lines, env).rv["OpenVPN.ConfigFile"] == path && Import(lines, env).files[path] == TextLines(st.extra))
  {
    NoConfigFileWhileReading(lines, env);
  }
}
