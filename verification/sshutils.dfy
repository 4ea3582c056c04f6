/** The SSH side of auto-configuration, as traces of remote and local
    effects. The router, the SSH transport, the `tmp` and `fs` modules are
    a `World` passed in: it says which effects throw, and with what message,
    and what each remote command prints. */
module SshUtils {
  import opened Wrappers
  import opened Strings
  import opened VpnConfig

  /** The SSH port as the page holds it: the number it starts with, or,
      once the field is edited, the field's text exactly as typed. */
  datatype SshPort = PortNumber(n: int) | PortText(s: string)

  /** `${sshPort}` in a template literal: a number in decimal, a text as it
      stands. */
  function PortString(p: SshPort): (s: string)
    ensures p.PortText? ==> s == p.s
    ensures p.PortNumber? && p.n >= 0 ==> CanonicalNumeral(s) && DigitsValue(s) == p.n
  {
    match p
    case PortNumber(n) =>
      if n >= 0 then NatToStringCanonical(n); IntToString(n)
      else IntToString(n)
    case PortText(t) => t
  }

  /** A typed port in canonical form prints just as its number does. */
  lemma CanonicalPortPrintsAsNumber(t: string)
    requires CanonicalNumeral(t)
    ensures PortString(PortText(t)) == PortString(PortNumber(DigitsValue(t)))
  {
    CanonicalNumeralRoundTrip(t);
  }

  /** A typed port with a leading zero is printed as typed, not as the
      number it denotes. */
  lemma LeadingZeroPortPrintedAsTyped()
    ensures PortString(PortText("022")) == "022"
    ensures PortString(PortNumber(22)) == "22"
  {
    assert NatToString(22) == NatToString(2) + [DigitChar(2)];
  }

  /** One remote or local action. */
  datatype Effect =
    | Connect(host: string, username: string, port: SshPort)
    | MakeDir(path: string)
    | CreateTemp(path: string)
    | WriteLocal(path: string, content: string)
    | Upload(local: string, remote: string)
    | RunScript(path: string)
    | RemoveRemote(path: string)
    | RemoveLocal(path: string)
    | ReleaseTemp(path: string)
    | ExecCommand(command: string)
    | Close

  /** What `execCommand` reports; `code` is `null` when no exit code came back. */
  datatype CommandResult = CommandResult(stdout: string, stderr: string, code: Option<int>)

  /** The outside world: the message an effect throws with, if it throws,
      and the output of each command. */
  datatype World = World(fails: Effect -> Option<string>, exec: string -> CommandResult)

  /** The effects attempted, in order, and how the operation ended: a value
      or a thrown message. */
  datatype Done<T> = Done(trace: seq<Effect>, result: Result<T, string>)

  function Perform(w: World, e: Effect): Done<()> {
    match w.fails(e)
    case Some(m) => Done([e], Failure(m))
    case None => Done([e], Success(()))
  }

  /** `await a; …b`: `b` runs only when `a` did not throw. */
  function AndThen<T>(a: Done<()>, b: Done<T>): Done<T> {
    if a.result.Failure? then Done(a.trace, Failure(a.result.error))
    else Done(a.trace + b.trace, b.result)
  }

  /** `try { a } finally { cleanup }`: the cleanup always runs, and an
      exception thrown by it replaces the outcome of `a`. */
  function Ensure<T>(a: Done<T>, cleanup: Done<()>): Done<T> {
    Done(a.trace + cleanup.trace, if cleanup.result.Failure? then Failure(cleanup.result.error) else a.result)
  }

  /** `catch (e) { throw new Error(prefix + e.message) }`. */
  function Rethrow<T>(a: Done<T>, prefix: string): Done<T> {
    Done(a.trace, if a.result.Failure? then Failure(prefix + a.result.error) else a.result)
  }

  /** A run of awaited effects, stopping at the first that throws. */
  function Steps(w: World, es: seq<Effect>): (d: Done<()>)
    ensures d.result.Success? <==> forall i :: 0 <= i < |es| ==> w.fails(es[i]).None?
    ensures d.result.Success? ==> d.trace == es
    ensures d.result.Failure? ==> exists k :: (0 <= k < |es| && d.trace == es[..k + 1]
      && w.fails(es[k]) == Some(d.result.error)
      && forall i :: 0 <= i < k ==> w.fails(es[i]).None?)
    decreases |es|
  {
    if |es| == 0 then Done([], Success(()))
    else
      var d := AndThen(Perform(w, es[0]), Steps(w, es[1..]));
      assert d.result.Success? ==> forall i :: 1 <= i < |es| ==> es[i] == es[1..][i - 1];
      d
  }

  // ---------------------------------------------------------------------------
  // connect
  // ---------------------------------------------------------------------------

  /** The keyboard-interactive handler: it answers with the password only
      when there is a first prompt and, lower-cased, it mentions "password";
      otherwise it never answers. */
  function KeyboardAnswer(prompts: seq<string>, password: string): (answer: Option<seq<string>>)
    ensures answer.Some? <==> |prompts| > 0 && Contains(ToLowerAscii(prompts[0]), "password")
    ensures answer.Some? ==> answer.value == [password]
  {
    if |prompts| > 0 && Contains(ToLowerAscii(prompts[0]), "password") then Some([password]) else None
  }

  /** A prompt that says "Password:" is answered, whatever its case. */
  lemma PasswordPromptAnswered(password: string)
    ensures KeyboardAnswer(["Password:"], password) == Some([password])
    ensures KeyboardAnswer(["PASSWORD"], password) == Some([password])
  {
    assert ToLowerAscii("Password:")[..8] == "password";
    assert StartsWith(ToLowerAscii("Password:"), "password");
    assert ToLowerAscii("PASSWORD") == "password";
    assert StartsWith(ToLowerAscii("PASSWORD"), "password");
  }

  // ---------------------------------------------------------------------------
  // putCertificateFilesToRemote
  // ---------------------------------------------------------------------------

  /** The local files the environment module names. */
  datatype LocalFiles = LocalFiles(caCert: string, serverCert: string, serverKey: string, dhPem: string)

  /** Making the directory and sending the CA certificate. */
  function HeadEffects(files: LocalFiles, dir: string): seq<Effect> {
    [MakeDir(dir), Upload(files.caCert, dir + "/ca.crt")]
  }

  /** Writing the CA key to the temporary file and sending it. */
  function KeyEffects(pem: string, dir: string, temp: string): seq<Effect> {
    [WriteLocal(temp, pem), Upload(temp, dir + "/ca.key")]
  }

  /** Sending the server certificate, the server key and the DH parameters. */
  function TailEffects(files: LocalFiles, dir: string): seq<Effect> {
    [Upload(files.serverCert, dir + "/server.crt"),
     Upload(files.serverKey, dir + "/server.key"),
     Upload(files.dhPem, dir + "/dh.pem")]
  }

  /** Upload of the certificate files into `dir`; the CA key goes through a
      temporary file `temp`, released even when writing or uploading it throws. */
  function PutCertificateFiles(w: World, files: LocalFiles, storeCaKeys: string, caPrivateKeyPem: string,
                               dir: string, temp: string): Done<()>
  {
    var key :=
      if storeCaKeys == "router" then
        AndThen(Perform(w, CreateTemp(temp)),
                Ensure(Steps(w, KeyEffects(caPrivateKeyPem, dir, temp)), Perform(w, ReleaseTemp(temp))))
      else Done([], Success(()));
    AndThen(Steps(w, HeadEffects(files, dir)), AndThen(key, Steps(w, TailEffects(files, dir))))
  }

  /** The remote names uploaded to, in order. */
  function Uploaded(trace: seq<Effect>): (r: seq<string>)
    ensures |r| <= |trace|
  {
    if |trace| == 0 then []
    else (if trace[0].Upload? then [trace[0].remote] else []) + Uploaded(trace[1..])
  }

  lemma {:induction false} UploadedAppend(a: seq<Effect>, b: seq<Effect>)
    ensures Uploaded(a + b) == Uploaded(a) + Uploaded(b)
    decreases |a|
  {
    if |a| > 0 {
      assert (a + b)[1..] == a[1..] + b;
      UploadedAppend(a[1..], b);
    } else {
      assert a + b == b;
    }
  }

  lemma UploadedOne(e: Effect)
    ensures Uploaded([e]) == if e.Upload? then [e.remote] else []
  {
    assert [e][1..] == [];
  }

  /** The effects of a finished upload. */
  lemma PutCertificateTrace(w: World, files: LocalFiles, storeCaKeys: string, pem: string, dir: string, temp: string)
    requires PutCertificateFiles(w, files, storeCaKeys, pem, dir, temp).result.Success?
    ensures PutCertificateFiles(w, files, storeCaKeys, pem, dir, temp).trace
      == HeadEffects(files, dir)
         + (if storeCaKeys == "router" then [CreateTemp(temp)] + KeyEffects(pem, dir, temp) + [ReleaseTemp(temp)] else [])
         + TailEffects(files, dir)
  {
  }

  lemma HeadUploads(files: LocalFiles, dir: string)
    ensures Uploaded(HeadEffects(files, dir)) == [dir + "/ca.crt"]
  {
    var h := HeadEffects(files, dir);
    assert h == [h[0]] + [h[1]];
    UploadedOne(h[0]);
    UploadedOne(h[1]);
    UploadedAppend([h[0]], [h[1]]);
  }

  lemma KeyUploads(pem: string, dir: string, temp: string)
    ensures Uploaded([CreateTemp(temp)] + KeyEffects(pem, dir, temp) + [ReleaseTemp(temp)]) == [dir + "/ca.key"]
  {
    var k := KeyEffects(pem, dir, temp);
    assert k == [k[0]] + [k[1]];
    UploadedOne(CreateTemp(temp));
    UploadedOne(k[0]);
    UploadedOne(k[1]);
    UploadedOne(ReleaseTemp(temp));
    UploadedAppend([k[0]], [k[1]]);
    UploadedAppend([CreateTemp(temp)], k);
    UploadedAppend([CreateTemp(temp)] + k, [ReleaseTemp(temp)]);
  }

  lemma TailUploads(files: LocalFiles, dir: string)
    ensures Uploaded(TailEffects(files, dir)) == [dir + "/server.crt", dir + "/server.key", dir + "/dh.pem"]
  {
    var t := TailEffects(files, dir);
    assert t == [t[0]] + ([t[1]] + [t[2]]);
    UploadedOne(t[0]);
    UploadedOne(t[1]);
    UploadedOne(t[2]);
    UploadedAppend([t[1]], [t[2]]);
    UploadedAppend([t[0]], [t[1]] + [t[2]]);
  }

  /** A finished upload sent the CA certificate, the CA key exactly when the
      keys are to be stored on the router, then the server certificate, the
      server key and the DH parameters. */
  lemma UploadOrder(w: World, files: LocalFiles, storeCaKeys: string, pem: string, dir: string, temp: string)
    requires PutCertificateFiles(w, files, storeCaKeys, pem, dir, temp).result.Success?
    ensures Uploaded(PutCertificateFiles(w, files, storeCaKeys, pem, dir, temp).trace)
      == [dir + "/ca.crt"] + (if storeCaKeys == "router" then [dir + "/ca.key"] else [])
         + [dir + "/server.crt", dir + "/server.key", dir + "/dh.pem"]
  {
    PutCertificateTrace(w, files, storeCaKeys, pem, dir, temp);
    var h := HeadEffects(files, dir);
    var t := TailEffects(files, dir);
    var k: seq<Effect> := if storeCaKeys == "router" then [CreateTemp(temp)] + KeyEffects(pem, dir, temp) + [ReleaseTemp(temp)] else [];
    HeadUploads(files, dir);
    TailUploads(files, dir);
    if storeCaKeys == "router" {
      KeyUploads(pem, dir, temp);
    } else {
      assert Uploaded(k) == [];
    }
    UploadedAppend(h, k);
    UploadedAppend(h + k, t);
  }

  /** The CA key leaves the machine only when the keys are stored on the
      router: otherwise no temporary file is made and nothing is sent to `ca.key`. */
  lemma KeyOnlyForRouter(w: World, files: LocalFiles, storeCaKeys: string, pem: string, dir: string, temp: string)
    requires storeCaKeys != "router"
    ensures forall e :: e in PutCertificateFiles(w, files, storeCaKeys, pem, dir, temp).trace ==>
      !e.CreateTemp? && !e.WriteLocal? && !e.ReleaseTemp? && !(e.Upload? && e.remote == dir + "/ca.key")
  {
    var h := HeadEffects(files, dir);
    var t := TailEffects(files, dir);
    StepsWithin(w, h);
    StepsWithin(w, t);
    KeyNameDiffers(dir);
    var d := PutCertificateFiles(w, files, storeCaKeys, pem, dir, temp);
    assert forall e :: e in d.trace ==> e in h || e in t;
  }

  /** The key's remote name is none of the other four. */
  lemma KeyNameDiffers(dir: string)
    ensures dir + "/ca.key" != dir + "/ca.crt"
    ensures dir + "/ca.key" != dir + "/server.crt"
    ensures dir + "/ca.key" != dir + "/server.key"
    ensures dir + "/ca.key" != dir + "/dh.pem"
  {
    var n := |dir|;
    assert (dir + "/ca.key")[n + 4] == 'k' && (dir + "/ca.crt")[n + 4] == 'c';
    assert (dir + "/ca.key")[n + 1] == 'c';
    assert (dir + "/server.crt")[n + 1] == 's' && (dir + "/server.key")[n + 1] == 's';
    assert (dir + "/dh.pem")[n + 1] == 'd';
  }

  /** A run of effects attempts nothing but those effects. */
  lemma StepsWithin(w: World, es: seq<Effect>)
    ensures forall e :: e in Steps(w, es).trace ==> e in es
  {
    var d := Steps(w, es);
    if d.result.Failure? {
      var k :| 0 <= k < |es| && d.trace == es[..k + 1];
      assert forall e :: e in es[..k + 1] ==> e in es;
    }
  }

  /** Once the temporary key file exists, it is released, whether or not
      writing and uploading it threw. */
  lemma TempKeyReleased(w: World, files: LocalFiles, pem: string, dir: string, temp: string)
    requires w.fails(MakeDir(dir)).None? && w.fails(Upload(files.caCert, dir + "/ca.crt")).None?
    requires w.fails(CreateTemp(temp)).None?
    ensures ReleaseTemp(temp) in PutCertificateFiles(w, files, "router", pem, dir, temp).trace
  {
    var key := Ensure(Steps(w, KeyEffects(pem, dir, temp)), Perform(w, ReleaseTemp(temp)));
    assert ReleaseTemp(temp) in key.trace;
  }

  // ---------------------------------------------------------------------------
  // runCommands
  // ---------------------------------------------------------------------------

  /** A temporary file: its local path and its base name. */
  datatype TempFile = TempFile(path: string, name: string)

  function RemoteScript(t: TempFile): string {
    "/tmp/" + t.name
  }

  /** The guarded part: create the temp file, write the commands into it,
      upload it to `/tmp/<name>` and run it with bash. */
  function ScriptBody(w: World, commands: string, t: TempFile): Done<()> {
    AndThen(Perform(w, CreateTemp(t.path)),
            Steps(w, [WriteLocal(t.path, commands), Upload(t.path, RemoteScript(t)), RunScript(RemoteScript(t))]))
  }

  /** The cleanup the `finally` block performs, each step guarded by the
      flag recording that the step it undoes was reached. */
  function CleanupEffects(w: World, commands: string, t: TempFile): seq<Effect> {
    var created := w.fails(CreateTemp(t.path)).None?;
    var generated := created && w.fails(WriteLocal(t.path, commands)).None?;
    var put := generated && w.fails(Upload(t.path, RemoteScript(t))).None?;
    (if put then [RemoveRemote(RemoteScript(t))] else [])
    + (if generated then [RemoveLocal(t.path)] else [])
    + (if created then [ReleaseTemp(t.path)] else [])
  }

  function Cleanup(w: World, commands: string, t: TempFile): Done<()> {
    Steps(w, CleanupEffects(w, commands, t))
  }

  const RunErrorPrefix := "Error running command:"

  /** `runCommands(commands, deleteTempFiles)` as written: with the flag set
      (its default) the `finally` block returns at once, which discards any
      exception and skips the cleanup. */
  function RunCommandsAsWritten(w: World, commands: string, deleteTempFiles: bool, t: TempFile): Done<()> {
    var body := ScriptBody(w, commands, t);
    if deleteTempFiles then Done(body.trace, Success(()))
    else Ensure(Rethrow(body, RunErrorPrefix), Cleanup(w, commands, t))
  }

  /** With the default flag, a run whose upload throws still reports
      success, and the local temporary file is never released. */
  lemma AsWrittenSwallowsFailure(w: World, commands: string, t: TempFile)
    requires w.fails(CreateTemp(t.path)).None? && w.fails(WriteLocal(t.path, commands)).None?
    requires w.fails(Upload(t.path, RemoteScript(t))).Some?
    ensures RunCommandsAsWritten(w, commands, true, t).result.Success?
    ensures ReleaseTemp(t.path) !in RunCommandsAsWritten(w, commands, true, t).trace
  {
    var es := [WriteLocal(t.path, commands), Upload(t.path, RemoteScript(t)), RunScript(RemoteScript(t))];
    StepsWithin(w, es);
  }

  /** `runCommands` with the flag read the way its name says: the cleanup
      runs when temporary files are to be deleted, and a failure always
      reaches the caller with its prefix. */
  function RunCommands(w: World, commands: string, deleteTempFiles: bool, t: TempFile): Done<()> {
    var caught := Rethrow(ScriptBody(w, commands, t), RunErrorPrefix);
    if deleteTempFiles then Ensure(caught, Cleanup(w, commands, t)) else caught
  }

  /** A failure of the guarded part reaches the caller prefixed with
      "Error running command:", unless the cleanup itself throws. */
  lemma RunCommandsReportsFailure(w: World, commands: string, deleteTempFiles: bool, t: TempFile)
    requires ScriptBody(w, commands, t).result.Failure?
    requires !deleteTempFiles || Cleanup(w, commands, t).result.Success?
    ensures RunCommands(w, commands, deleteTempFiles, t).result
      == Failure(RunErrorPrefix + ScriptBody(w, commands, t).result.error)
  {
  }

  /** A run that threw nowhere reports success. */
  lemma RunCommandsSucceeds(w: World, commands: string, deleteTempFiles: bool, t: TempFile)
    requires ScriptBody(w, commands, t).result.Success?
    requires !deleteTempFiles || Cleanup(w, commands, t).result.Success?
    ensures RunCommands(w, commands, deleteTempFiles, t).result.Success?
  {
  }

  /** When temporary files are deleted and deleting does not throw, each
      file is removed exactly when the step creating it was reached. */
  lemma RunCommandsCleansUp(w: World, commands: string, t: TempFile)
    requires w.fails(RemoveRemote(RemoteScript(t))).None? && w.fails(RemoveLocal(t.path)).None?
    requires w.fails(ReleaseTemp(t.path)).None?
    ensures var trace := RunCommands(w, commands, true, t).trace;
      (ReleaseTemp(t.path) in trace <==> w.fails(CreateTemp(t.path)).None?)
      && (RemoveLocal(t.path) in trace <==> w.fails(CreateTemp(t.path)).None? && w.fails(WriteLocal(t.path, commands)).None?)
      && (RemoveRemote(RemoteScript(t)) in trace <==>
            w.fails(CreateTemp(t.path)).None? && w.fails(WriteLocal(t.path, commands)).None?
            && w.fails(Upload(t.path, RemoteScript(t))).None?)
  {
    var es := [WriteLocal(t.path, commands), Upload(t.path, RemoteScript(t)), RunScript(RemoteScript(t))];
    var body := ScriptBody(w, commands, t);
    var cs := CleanupEffects(w, commands, t);
    StepsWithin(w, es);
    assert forall e :: e in body.trace ==> e == CreateTemp(t.path) || e in es;
    assert forall i :: 0 <= i < |cs| ==> w.fails(cs[i]).None?;
    assert Cleanup(w, commands, t).trace == cs;
    assert RunCommands(w, commands, true, t).trace == body.trace + cs;
  }

  // ---------------------------------------------------------------------------
  // The scripts
  // ---------------------------------------------------------------------------

  const ScriptSource := " source /opt/vyatta/etc/" + "functions/script-template   "
  const ScriptReload := " sudo killall -HUP openvpn"

  /** `generateCommands(configs, vpnParameters, configDir)`: the template
      text, written here as its lines: an empty first line, the
      script-template line, a blank, the EdgeRouter server configuration in
      the default directory indented by one space (the `configDir` argument
      is not passed on), a blank, the OpenVPN reload, and two blank lines. */
  function GenerateCommands(p: VpnSettings, configDir: string): string {
    Join(["", ScriptSource, " ", " " + EdgeRouterConfig(p, None), " ", ScriptReload, " ", "  "], '\n')
  }

  /** The script's lines: the server configuration's own lines (the first
      indented by one space) framed by the template line and the reload. */
  lemma CommandsLines(p: VpnSettings, configDir: string)
    requires OneLineFields(p)
    ensures var l := EdgeRouterLines(p, DefaultConfigDir);
      Split(GenerateCommands(p, configDir), '\n')
        == ["", ScriptSource, " ", " " + l[0]] + l[1..] + [" ", ScriptReload, " ", "  "]
  {
    var l := EdgeRouterLines(p, DefaultConfigDir);
    var head := ["", ScriptSource, " "];
    var tail := [" ", ScriptReload, " ", "  "];
    DefaultConfigDirIsLine();
    EdgeLinesAreLines(p, DefaultConfigDir);
    assert '\n' !in ScriptSource;
    assert '\n' !in ScriptReload;
    assert ["", ScriptSource, " ", " " + EdgeRouterConfig(p, None), " ", ScriptReload, " ", "  "]
      == head + [" " + Join(l, '\n')] + tail;
    Spliced(head, tail, " ", l);
    FramedAreLines(ScriptSource, ScriptReload, l);
    SplitJoin(head + ([" " + l[0]] + l[1..]) + tail, '\n');
  }

  /** Joining a block of lines into one entry of a list, then the list, is
      joining the list with the block's lines in place. */
  lemma Spliced(head: seq<string>, tail: seq<string>, pre: string, l: seq<string>)
    requires |head| >= 1 && |tail| >= 1 && |l| >= 1
    ensures Join(head + [pre + Join(l, '\n')] + tail, '\n') == Join(head + ([pre + l[0]] + l[1..]) + tail, '\n')
  {
    var mid := [pre + l[0]] + l[1..];
    IndentFirst(pre, l, '\n');
    JoinAppend(head, [pre + Join(l, '\n')], '\n');
    JoinAppend(head + [pre + Join(l, '\n')], tail, '\n');
    JoinAppend(head, mid, '\n');
    JoinAppend(head + mid, tail, '\n');
  }

  /** Prefixing the first line prefixes the joined text. */
  lemma IndentFirst(pre: string, l: seq<string>, sep: char)
    requires |l| >= 1
    ensures Join([pre + l[0]] + l[1..], sep) == pre + Join(l, sep)
  {
    var m := [pre + l[0]] + l[1..];
    assert m[1..] == l[1..];
  }

  lemma FramedAreLines(src: string, reload: string, l: seq<string>)
    requires '\n' !in src && '\n' !in reload && AllOneLine(l) && |l| >= 1
    ensures AllOneLine(["", src, " "] + ([" " + l[0]] + l[1..]) + [" ", reload, " ", "  "])
  {
    var all := ["", src, " "] + ([" " + l[0]] + l[1..]) + [" ", reload, " ", "  "];
    assert '\n' !in " " + l[0] by {
      assert l[0] in l;
    }
    forall i | 0 <= i < |all|
      ensures '\n' !in all[i]
    {
      if 4 <= i < |l| + 3 {
        assert all[i] == l[i - 3];
      }
    }
  }

  const FireWallPrefix := "/opt/vyatta/sbin/" + "vyatta-cfg-cmd-wrapper"

  function Prefixed(lines: seq<string>): (r: seq<string>)
    ensures |r| == |lines|
    ensures forall i :: 0 <= i < |lines| ==> r[i] == FireWallPrefix + " " + lines[i]
  {
    seq(|lines|, i requires 0 <= i < |lines| => FireWallPrefix + " " + lines[i])
  }

  /** `generateFireWallConfigCommands(vpnParameters)`. The firewall text
      comes from a renderer this model does not define, so it is a
      parameter: its lines framed by `begin` and `end`, each prefixed by the
      configuration wrapper. */
  function FireWallCommands(rendered: string): string {
    Join(Prefixed(["begin"] + Split(rendered, '\n') + ["end"]), '\n')
  }

  /** The firewall script has two lines more than the rendered text; every
      line runs the wrapper, the first on `begin`, the last on `end`, and
      the lines between are the rendered text's lines in order. */
  lemma FireWallCommandsLines(rendered: string)
    ensures var lines := Split(FireWallCommands(rendered), '\n');
      var src := Split(rendered, '\n');
      |lines| == |src| + 2
      && lines[0] == FireWallPrefix + " begin"
      && lines[|lines| - 1] == FireWallPrefix + " end"
      && (forall i :: 0 <= i < |src| ==> lines[i + 1] == FireWallPrefix + " " + src[i])
  {
    var all := ["begin"] + Split(rendered, '\n') + ["end"];
    assert '\n' !in FireWallPrefix;
    forall i | 0 <= i < |all|
      ensures '\n' !in FireWallPrefix + " " + all[i]
    {
    }
    SplitJoin(Prefixed(all), '\n');
  }

  /** A line with the wrapper prefix taken off. */
  function Unprefixed(line: string): string {
    if StartsWith(line, FireWallPrefix + " ") then line[|FireWallPrefix| + 1..] else line
  }

  /** Taking the wrapper prefix off the middle lines gives back the
      rendered text. */
  lemma FireWallCommandsRoundTrip(rendered: string)
    ensures var lines := Split(FireWallCommands(rendered), '\n');
      |lines| >= 2
      && Join(seq(|lines| - 2, i requires 0 <= i < |lines| - 2 => Unprefixed(lines[i + 1])), '\n') == rendered
  {
    FireWallCommandsLines(rendered);
    var lines := Split(FireWallCommands(rendered), '\n');
    var src := Split(rendered, '\n');
    var back := seq(|lines| - 2, i requires 0 <= i < |lines| - 2 => Unprefixed(lines[i + 1]));
    forall i | 0 <= i < |src|
      ensures back[i] == src[i]
    {
      assert lines[i + 1] == FireWallPrefix + " " + src[i];
      assert StartsWith(lines[i + 1], FireWallPrefix + " ");
    }
    assert back == src;
    JoinSplit(rendered, '\n');
  }

  // ---------------------------------------------------------------------------
  // autoConfigViaSSH
  // ---------------------------------------------------------------------------

  /** The SSH form fields the operations read. */
  datatype SshConfigs = SshConfigs(sshServer: string, sshUsername: string, sshPassword: string,
                                   sshPort: SshPort, optStoreCaKeys: string, caPrivateKeyPem: string)

  /** The three temporary files an auto-configuration creates. */
  datatype Temps = Temps(caKey: string, vpnScript: TempFile, fireWallScript: TempFile)

  const DefaultPort := PortNumber(22)
  const ConnectErrorPrefix := "failed to open ssh connection: "

  /** `catch (e) { throw connectionOpen ? e : new Error(prefix + e.message) }
      finally { close() }` around a connect followed by `rest`. */
  function Connected<T>(w: World, c: SshConfigs, rest: Done<T>): (d: Done<T>)
    ensures |d.trace| >= 2 && d.trace[0] == Connect(c.sshServer, c.sshUsername, DefaultPort)
    ensures d.trace[|d.trace| - 1] == Close
  {
    var attempt := Perform(w, Connect(c.sshServer, c.sshUsername, DefaultPort));
    var body := AndThen(attempt, rest);
    var caught := if attempt.result.Failure? then Rethrow(body, ConnectErrorPrefix) else body;
    Done(caught.trace + [Close], caught.result)
  }

  /** `autoConfigViaSSH(configs, vpnParameters, configDir)`: connect on port
      22, upload the certificate files to the default directory, run the
      server script, then the firewall script. Both scripts go through
      `runCommands(commands)` with its default flag, so through the code as
      written: neither can fail the configuration, and neither cleans up. */
  function AutoConfig(w: World, files: LocalFiles, c: SshConfigs, p: VpnSettings, fireWallText: string,
                      configDir: string, temps: Temps): (d: Done<()>)
    ensures |d.trace| >= 2 && d.trace[0] == Connect(c.sshServer, c.sshUsername, DefaultPort)
    ensures d.trace[|d.trace| - 1] == Close
  {
    Connected(w, c,
      AndThen(PutCertificateFiles(w, files, c.optStoreCaKeys, c.caPrivateKeyPem, DefaultConfigDir, temps.caKey),
      AndThen(RunCommandsAsWritten(w, GenerateCommands(p, configDir), true, temps.vpnScript),
              RunCommandsAsWritten(w, FireWallCommands(fireWallText), true, temps.fireWallScript))))
  }

  /** Once connected, the configuration succeeds exactly when the upload of
      the certificate files does, whatever the scripts do; it then runs the
      bodies of both scripts, in order, and closes. */
  lemma AutoConfigOutcome(w: World, files: LocalFiles, c: SshConfigs, p: VpnSettings, text: string,
                          configDir: string, temps: Temps)
    requires w.fails(Connect(c.sshServer, c.sshUsername, DefaultPort)).None?
    ensures var put := PutCertificateFiles(w, files, c.optStoreCaKeys, c.caPrivateKeyPem, DefaultConfigDir, temps.caKey);
      var d := AutoConfig(w, files, c, p, text, configDir, temps);
      && (d.result.Success? <==> put.result.Success?)
      && (put.result.Success? ==>
            d.trace == [Connect(c.sshServer, c.sshUsername, DefaultPort)] + put.trace
                       + ScriptBody(w, GenerateCommands(p, configDir), temps.vpnScript).trace
                       + ScriptBody(w, FireWallCommands(text), temps.fireWallScript).trace + [Close])
  {
    var put := PutCertificateFiles(w, files, c.optStoreCaKeys, c.caPrivateKeyPem, DefaultConfigDir, temps.caKey);
    var vpn := RunCommandsAsWritten(w, GenerateCommands(p, configDir), true, temps.vpnScript);
    var fw := RunCommandsAsWritten(w, FireWallCommands(text), true, temps.fireWallScript);
    var connect := [Connect(c.sshServer, c.sshUsername, DefaultPort)];
    if put.result.Success? {
      assert AndThen(put, AndThen(vpn, fw)).trace == put.trace + (vpn.trace + fw.trace);
      assert connect + (put.trace + (vpn.trace + fw.trace)) + [Close]
          == connect + put.trace + vpn.trace + fw.trace + [Close];
    }
  }

  /** A failing server script leaves no trace in the outcome: the
      configuration reports success, where the corrected `RunCommands`
      would have reported the failure. */
  lemma AutoConfigIgnoresScriptFailure(w: World, files: LocalFiles, c: SshConfigs, p: VpnSettings, text: string,
                                       configDir: string, temps: Temps)
    requires w.fails(Connect(c.sshServer, c.sshUsername, DefaultPort)).None?
    requires PutCertificateFiles(w, files, c.optStoreCaKeys, c.caPrivateKeyPem, DefaultConfigDir, temps.caKey).result.Success?
    requires ScriptBody(w, GenerateCommands(p, configDir), temps.vpnScript).result.Failure?
    ensures AutoConfig(w, files, c, p, text, configDir, temps).result.Success?
    ensures RunCommands(w, GenerateCommands(p, configDir), true, temps.vpnScript).result.Failure?
  {
    AutoConfigOutcome(w, files, c, p, text, configDir, temps);
  }

  /** A failed connect is reported with the "failed to open ssh connection"
      prefix, and nothing but closing follows it. */
  lemma AutoConfigConnectFailure(w: World, files: LocalFiles, c: SshConfigs, p: VpnSettings, text: string,
                                 configDir: string, temps: Temps)
    requires w.fails(Connect(c.sshServer, c.sshUsername, DefaultPort)).Some?
    ensures var d := AutoConfig(w, files, c, p, text, configDir, temps);
      d.result == Failure(ConnectErrorPrefix + w.fails(Connect(c.sshServer, c.sshUsername, DefaultPort)).value)
      && d.trace == [Connect(c.sshServer, c.sshUsername, DefaultPort), Close]
  {
  }

  /** After a successful connect, a failure reaches the caller unchanged. */
  lemma AutoConfigLaterFailure(w: World, files: LocalFiles, c: SshConfigs, p: VpnSettings, text: string,
                               configDir: string, temps: Temps)
    requires w.fails(Connect(c.sshServer, c.sshUsername, DefaultPort)).None?
    requires PutCertificateFiles(w, files, c.optStoreCaKeys, c.caPrivateKeyPem, DefaultConfigDir, temps.caKey).result.Failure?
    ensures AutoConfig(w, files, c, p, text, configDir, temps).result
      == Failure(PutCertificateFiles(w, files, c.optStoreCaKeys, c.caPrivateKeyPem, DefaultConfigDir, temps.caKey).result.error)
  {
  }

  /** The SSH port typed into the form plays no part. */
  lemma AutoConfigIgnoresPort(w: World, files: LocalFiles, c: SshConfigs, port: SshPort, p: VpnSettings, text: string,
                              configDir: string, temps: Temps)
    ensures AutoConfig(w, files, c, p, text, configDir, temps) == AutoConfig(w, files, c.(sshPort := port), p, text, configDir, temps)
  {
  }

  // ---------------------------------------------------------------------------
  // Single commands
  // ---------------------------------------------------------------------------

  /** `readFileContentFromRouter(configs, filename, configDir)`: `cat` the
      file; any error output becomes the thrown message, with its first
      "cat: " removed. */
  function ReadFileContent(w: World, c: SshConfigs, filename: string, configDir: string): (d: Done<string>)
    ensures |d.trace| >= 2 && d.trace[|d.trace| - 1] == Close
  {
    var command := "cat " + configDir + "/" + filename;
    var out := w.exec(command);
    var run := AndThen(Perform(w, ExecCommand(command)),
                       if out.stderr != "" then Done([], Failure(ReplaceFirst(out.stderr, "cat: ", "")))
                       else Done([], Success(out.stdout)));
    Connected(w, c, run)
  }

  /** Connected and answered, the read returns the file's text exactly when
      `cat` wrote no error, and otherwise throws that error. */
  lemma ReadFileContentResult(w: World, c: SshConfigs, filename: string, configDir: string)
    requires w.fails(Connect(c.sshServer, c.sshUsername, DefaultPort)).None?
    requires w.fails(ExecCommand("cat " + configDir + "/" + filename)).None?
    ensures var out := w.exec("cat " + configDir + "/" + filename);
      var d := ReadFileContent(w, c, filename, configDir);
      (d.result.Success? <==> out.stderr == "")
      && (d.result.Success? ==> d.result.value == out.stdout)
      && (d.result.Failure? ==> d.result.error == ReplaceFirst(out.stderr, "cat: ", ""))
  {
  }

  /** `checkFileExistsOnRouter(configs, filename, configDir)`: `ls` the file
      on the open connection; any error output means it is absent. */
  function FileExists(w: World, filename: string, configDir: string): (d: Done<bool>)
    ensures d.trace == [ExecCommand("ls " + configDir + "/" + filename)]
    ensures d.result.Failure? <==> w.fails(ExecCommand("ls " + configDir + "/" + filename)).Some?
    ensures d.result.Success? ==> (d.result.value <==> w.exec("ls " + configDir + "/" + filename).stderr == "")
  {
    var command := "ls " + configDir + "/" + filename;
    AndThen(Perform(w, ExecCommand(command)), Done([], Success(w.exec(command).stderr == "")))
  }

  /** What `executeCommand` returns and whether it calls the error callback. */
  datatype Executed = Executed(value: Option<string>, reported: Option<string>)

  /** `executeCommand(command, errorCallback)`: `null` when the command wrote
      to stderr, its output otherwise; the callback, when given, hears the
      error output. */
  function ExecuteCommand(w: World, command: string, hasCallback: bool): (d: Done<Executed>)
    ensures d.trace == [ExecCommand(command)]
    ensures d.result.Failure? <==> w.fails(ExecCommand(command)).Some?
    ensures d.result.Success? ==>
      var out := w.exec(command);
      (d.result.value.value.None? <==> out.stderr != "")
      && (d.result.value.value.Some? ==> d.result.value.value.value == out.stdout)
      && (d.result.value.reported.Some? <==> out.stderr != "" && hasCallback)
      && (d.result.value.reported.Some? ==> d.result.value.reported.value == out.stderr)
  {
    var out := w.exec(command);
    AndThen(Perform(w, ExecCommand(command)),
            Done([], Success(Executed(if out.stderr != "" then None else Some(out.stdout),
                                      if out.stderr != "" && hasCallback then Some(out.stderr) else None))))
  }

  /** `executeCommandWithReturnCode(command)`: the exit code alone. */
  function ExecuteWithReturnCode(w: World, command: string): (d: Done<Option<int>>)
    ensures d.trace == [ExecCommand(command)]
    ensures d.result.Success? ==> d.result.value == w.exec(command).code
    ensures d.result.Failure? <==> w.fails(ExecCommand(command)).Some?
  {
    AndThen(Perform(w, ExecCommand(command)), Done([], Success(w.exec(command).code)))
  }
}
