/** The configurator page: one run of "generate configurations" builds or
    reuses the CA, issues the server certificates, hands over to the client
    certificate generator, produces the DH parameters, renders the router
    settings and, in SSH mode, configures the router. Every step posts a
    status line; a finished run stores the artifacts in the output record.
    The file system, the crypto library and the router are parameters. */
module Configurator {
  import opened Wrappers
  import opened Strings
  import opened Js
  import opened Calendar
  import opened Options
  import opened Certificates
  import opened DhParams
  import opened VpnConfig
  import opened SshUtils
  import opened Der

  // ---------------------------------------------------------------------------
  // The output record and its updates
  // ---------------------------------------------------------------------------

  /** `configuratorOutput`: the SSH form, the generated artifacts and the
      run's progress. `optStoreCaKeys` is "" when the record has no such
      entry, which no control of the page sets. */
  datatype Output = Output(
    configuratorMode: string,
    sshServer: string,
    sshServerErrorText: Option<string>,
    sshPort: SshPort,
    sshUsername: string,
    sshPassword: string,
    caCertPem: string,
    caPrivateKeyPem: string,
    dhParamsPem: string,
    additionalConfig: Option<string>,
    ipTablesConfig: Option<string>,
    certificateStage: int,
    stateText: string,
    ignoreConfigurationErrors: bool,
    optStoreCaKeys: string)

  const Idle := 0
  const Busy := 1
  const Finished := 2

  /** `updateState(stateText)`: the record captured when the run started,
      with the new status text, marked busy. */
  function UpdateState(captured: Output, text: string): (o: Output)
    ensures o.certificateStage == Busy && o.stateText == text
    ensures o.(certificateStage := captured.certificateStage, stateText := captured.stateText) == captured
  {
    captured.(stateText := text, certificateStage := Busy)
  }

  /** The run button: disabled while a run is busy, and while the settings
      have errors that the user has not chosen to ignore. Whether there are
      errors comes from a table this model does not define. */
  predicate RunEnabled(o: Output, settingsHaveErrors: bool) {
    !(o.certificateStage == Busy || (settingsHaveErrors && !o.ignoreConfigurationErrors))
  }

  /** The button's caption: the status text, or the invitation when there is none. */
  function RunCaption(o: Output): (caption: string)
    ensures o.stateText != "" ==> caption == o.stateText
    ensures o.stateText == "" ==> caption == "Click me to run configurator"
  {
    if o.stateText != "" then o.stateText else "Click me to run configurator"
  }

  /** The SSH settings `autoConfigViaSSH` reads from the record. */
  function SshConfigsOf(o: Output): (c: SshConfigs)
    ensures c.sshServer == o.sshServer && c.sshUsername == o.sshUsername && c.sshPort == o.sshPort
    ensures c.caPrivateKeyPem == o.caPrivateKeyPem && c.optStoreCaKeys == o.optStoreCaKeys
  {
    SshConfigs(o.sshServer, o.sshUsername, o.sshPassword, o.sshPort, o.optStoreCaKeys, o.caPrivateKeyPem)
  }

  // ---------------------------------------------------------------------------
  // Inputs
  // ---------------------------------------------------------------------------

  /** The machine: dev mode, the output directory, the clock, the files and
      directories already on disk. */
  datatype Machine = Machine(isDev: bool, executableDir: string, now: Date,
                             disk: map<string, string>, existingDirs: set<string>)

  /** The crypto library and its random choices. `caKeyClock` and
      `leafKeyClock(i)` are the clock read by `new Date()` once the CA's and
      the i-th server's key pair are generated, which is when each
      certificate's notAfter is taken. `primeSearch` is the DH prime found,
      or `None` with `primeSearchError` thrown. */
  datatype Crypto = Crypto(forge: Forge, caEntropy: nat, caKeyClock: ValidDate,
                           leafEntropy: nat -> nat, leafKeyClock: nat -> ValidDate,
                           primeSearch: Option<nat>, primeSearchError: string, encode64: seq<byte> -> string)

  /** The certificates with a full-width prime, as the library's search delivers. */
  predicate WellFormed(m: Machine, k: Crypto) {
    Valid(m.now) && (k.primeSearch.Some? ==> FullWidth(k.primeSearch.value))
  }

  /** What the wizard hands the page. `form` is `vpnParameters` as the
      certificate builders read it and `vpn` the same parameters as the
      config renderers read them. `reuseLocalCa` is whether
      `optRegenerateCA` equals the use-existing-local constant, which
      vpn-utils.js does not define. `clientStep` is the outcome of the client
      generator, also not defined there: the status lines it posts, or its
      error. `fireWallConfig` is what the undefined firewall renderer gives. */
  datatype Wizard = Wizard(form: Form, vpn: VpnSettings, publicAddress: string, reuseLocalCa: bool,
                           serverOptions: seq<CertOption>, clientStep: Result<seq<string>, string>,
                           fireWallConfig: Option<string>)

  /** The router side of an auto-configuration. */
  datatype Remote = Remote(w: World, files: LocalFiles, fireWallText: string, temps: Temps)

  /** A file the run writes. */
  datatype LocalWrite = LocalWrite(path: string, content: string)

  function CaCertFile(m: Machine): string {
    m.executableDir + "/ca.crt"
  }

  function CaKeyFile(m: Machine): string {
    m.executableDir + "/ca.key"
  }

  function DhPemFile(m: Machine): string {
    m.executableDir + "/dh.pem"
  }

  /** The entry `form[key]`, `None` when absent. */
  function FormValue(form: Form, key: string): (v: Option<Value>)
    ensures v.Some? <==> key in form
    ensures v.Some? ==> v.value == form[key]
  {
    if key in form then Some(form[key]) else None
  }

  // ---------------------------------------------------------------------------
  // The CA
  // ---------------------------------------------------------------------------

  const ReuseText := "Reusing existing CA"
  const BuildText := "Building CA"

  function CaMessage(reuse: bool): string {
    if reuse then ReuseText else BuildText
  }

  /** `buildCA(vpnParameters)`: the subject from the wizard's fields and its
      key size; the parameters hold no validity bounds. */
  function CaOptions(form: Form): CertOptions {
    CertOptions(form, None, None, FormValue(form, "keySize"), None)
  }

  /** `reuseExistingCA()`: read both PEM files and parse them; any failure is
      swallowed and gives `undefined` (`None`). */
  function ReuseExistingCa(m: Machine, forge: Forge): (r: Option<CaBundle>)
    ensures r.Some? <==> CaCertFile(m) in m.disk && CaKeyFile(m) in m.disk
                         && ReadExistingCA(forge, m.disk[CaKeyFile(m)], m.disk[CaCertFile(m)]).Success?
    ensures r.Some? ==> r.value.caCertPem == m.disk[CaCertFile(m)] && r.value.caPrivateKeyPem == m.disk[CaKeyFile(m)]
  {
    if CaCertFile(m) in m.disk && CaKeyFile(m) in m.disk then
      var certPem := m.disk[CaCertFile(m)];
      var keyPem := m.disk[CaKeyFile(m)];
      match ReadExistingCA(forge, keyPem, certPem)
      case Success(loaded) => Some(CaBundle(loaded.caCert, loaded.caPrivateKey, certPem, keyPem))
      case Failure(_) => None
    else None
  }

  /** The TypeError raised when `undefined` is destructured into the CA fields. */
  const NoCaText := "Cannot destructure the CA: reuseExistingCA gave undefined"

  /** The CA the run continues with and the files written for it. */
  datatype CaStep = CaStep(writes: seq<LocalWrite>, ca: Result<CaBundle, string>)

  /** Reuse when asked to, otherwise `generateServerCA()`: build a new CA
      and write both of its PEM files. */
  function ObtainCa(m: Machine, k: Crypto, wiz: Wizard): (s: CaStep)
    requires Valid(m.now)
    ensures wiz.reuseLocalCa ==> s.writes == []
    ensures wiz.reuseLocalCa ==> (s.ca.Success? <==> ReuseExistingCa(m, k.forge).Some?)
    ensures !wiz.reuseLocalCa ==> (s.ca.Success? <==> BuildCA(k.forge, CaOptions(wiz.form), m.now, k.caKeyClock, k.caEntropy).Success?)
    ensures !wiz.reuseLocalCa && s.ca.Success? ==>
      s.writes == [LocalWrite(CaCertFile(m), s.ca.value.caCertPem), LocalWrite(CaKeyFile(m), s.ca.value.caPrivateKeyPem)]
  {
    if wiz.reuseLocalCa then
      match ReuseExistingCa(m, k.forge)
      case Some(ca) => CaStep([], Success(ca))
      case None => CaStep([], Failure(NoCaText))
    else
      match BuildCA(k.forge, CaOptions(wiz.form), m.now, k.caKeyClock, k.caEntropy)
      case Failure(e) => CaStep([], Failure(e))
      case Success(ca) =>
        CaStep([LocalWrite(CaCertFile(m), ca.caCertPem), LocalWrite(CaKeyFile(m), ca.caPrivateKeyPem)], Success(ca))
  }

  // ---------------------------------------------------------------------------
  // Server certificates
  // ---------------------------------------------------------------------------

  /** Status lines, files written, directories made, and the error thrown. */
  datatype Progress = Progress(statuses: seq<string>, writes: seq<LocalWrite>, dirs: seq<string>, error: Option<string>)

  /** `vpnParameters.userKeysDir || executableDir`. */
  function KeysDir(form: Form, executableDir: string): (dir: string)
    ensures TruthyAt(form, "userKeysDir") && form["userKeysDir"].Text? ==> dir == form["userKeysDir"].s
    ensures !TruthyAt(form, "userKeysDir") ==> dir == executableDir
  {
    if TruthyAt(form, "userKeysDir") && form["userKeysDir"].Text? then form["userKeysDir"].s else executableDir
  }

  /** The start of the server certificates' validity: a day early in dev mode. */
  function ServerValidityStart(m: Machine): (d: Date)
    requires Valid(m.now)
    ensures m.isDev ==> d == PrevDay(m.now)
    ensures !m.isDev ==> d == m.now
  {
    if m.isDev then PrevDay(m.now) else m.now
  }

  /** The options one server certificate is built from: its username as
      common name, the wizard's key size, its password. */
  function ServerCertOptions(wiz: Wizard, o: CertOption, start: Date): (c: CertOptions)
    ensures c.validityStart == Some(start) && c.validityEnd.None?
    ensures UsernameField in o ==> c.attrs == map["commonName" := Text(o[UsernameField])]
    ensures c.password.Some? <==> PasswordField in o
  {
    var attrs := if UsernameField in o then map["commonName" := Text(o[UsernameField])] else map[];
    var password := if PasswordField in o then Some(Text(o[PasswordField])) else None;
    CertOptions(attrs, Some(start), None, FormValue(wiz.form, "keySize"), password)
  }

  /** The client profile written next to each server certificate. */
  function OvpnLines(publicAddress: string, vpnPort: int, routerInternalIP: string, user: string): seq<string> {
    ["client",
     "remote " + publicAddress + " " + IntToString(vpnPort),
     "port " + IntToString(vpnPort),
     "dev tun",
     "#secret " + user + ".key",
     "proto tcp",
     "",
     "comp-lzo",
     "route-gateway " + routerInternalIP + " ",
     "float",
     "",
     "ca ca.crt",
     "cert " + user + ".crt",
     "key " + user + ".key",
     ""]
  }

  function Ovpn(wiz: Wizard, user: string): string {
    Join(OvpnLines(wiz.publicAddress, wiz.vpn.vpnPort, wiz.vpn.routerInternalIP, user), '\n')
  }

  /** With one-line fields, the profile's lines are exactly the template's,
      naming the user's own certificate and key. */
  lemma OvpnNamesItsUser(wiz: Wizard, user: string)
    requires '\n' !in wiz.publicAddress && '\n' !in wiz.vpn.routerInternalIP && '\n' !in user
    ensures var lines := Split(Ovpn(wiz, user), '\n');
      |lines| == 15 && lines[12] == "cert " + user + ".crt" && lines[13] == "key " + user + ".key"
      && lines[1] == "remote " + wiz.publicAddress + " " + IntToString(wiz.vpn.vpnPort)
  {
    var lines := OvpnLines(wiz.publicAddress, wiz.vpn.vpnPort, wiz.vpn.routerInternalIP, user);
    IntIsOneLine(wiz.vpn.vpnPort);
    forall i | 0 <= i < |lines|
      ensures '\n' !in lines[i]
    {
    }
    SplitJoin(lines, '\n');
  }

  function UserDir(keysDir: string, user: string): string {
    keysDir + "/" + user
  }

  function ServerStatus(i: nat): string {
    "Generating certificates for server " + NatToString(i + 1)
  }

  /** The files written for one user, in order. */
  function UserFiles(dir: string, user: string, leaf: LeafBundle, ovpn: string): seq<LocalWrite> {
    [LocalWrite(dir + "/" + user + ".crt", leaf.certPem),
     LocalWrite(dir + "/" + user + ".key", leaf.privateKeyPem),
     LocalWrite(dir + "/" + user + ".ovpn", ovpn)]
  }

  /** The certificate of server `i`. */
  function ServerLeaf(m: Machine, k: Crypto, wiz: Wizard, ca: CaBundle, i: nat): Result<LeafBundle, string>
    requires Valid(m.now) && i < |wiz.serverOptions|
  {
    BuildClientCertificate(k.forge, ca.caCert, ca.caPrivateKey,
                           ServerCertOptions(wiz, wiz.serverOptions[i], ServerValidityStart(m)),
                           m.now, k.leafKeyClock(i), k.leafEntropy(i))
  }

  /** A server step that posted one status and wrote three files per server. */
  predicate OnePerServer(p: Progress, n: nat) {
    |p.statuses| == n && |p.writes| == 3 * n
    && forall j :: 0 <= j < n ==> p.statuses[j] == ServerStatus(j)
  }

  /** The outcome of building each server's certificate. */
  function ServerLeaves(m: Machine, k: Crypto, wiz: Wizard, ca: CaBundle): (leaves: seq<Result<LeafBundle, string>>)
    requires Valid(m.now)
    ensures |leaves| == |wiz.serverOptions|
    ensures forall i :: 0 <= i < |leaves| ==> leaves[i] == ServerLeaf(m, k, wiz, ca, i)
  {
    seq(|wiz.serverOptions|, i requires 0 <= i < |wiz.serverOptions| => ServerLeaf(m, k, wiz, ca, i))
  }

  /** The loop over `serverOptions` from index `i`, given each certificate's
      outcome; `made` holds the directories this run has created so far. */
  function ServerCerts(wiz: Wizard, keysDir: string, existingDirs: set<string>,
                       leaves: seq<Result<LeafBundle, string>>, i: nat, made: set<string>): (p: Progress)
    requires |leaves| == |wiz.serverOptions| && i <= |leaves|
    ensures |p.statuses| <= |leaves| - i
    ensures p.error.None? ==> |p.statuses| == |leaves| - i && |p.writes| == 3 * |p.statuses|
    ensures p.error.None? ==> forall j :: 0 <= j < |p.statuses| ==> p.statuses[j] == ServerStatus(i + j)
    decreases |leaves| - i
  {
    if i == |leaves| then Progress([], [], [], None)
    else
      var user := NameKey(wiz.serverOptions[i]);
      var status := ServerStatus(i);
      match leaves[i]
      case Failure(e) => Progress([status], [], [], Some(e))
      case Success(leaf) =>
        var dir := UserDir(keysDir, user);
        var mkdir := if dir in existingDirs || dir in made then [] else [dir];
        var rest := ServerCerts(wiz, keysDir, existingDirs, leaves, i + 1, made + {dir});
        Progress([status] + rest.statuses, UserFiles(dir, user, leaf, Ovpn(wiz, user)) + rest.writes,
                 mkdir + rest.dirs, rest.error)
  }

  /** The files of server `j` sit at positions 3(j - i) to 3(j - i) + 2 of a
      successful loop's writes, in the user's own directory. */
  lemma {:induction false} ServerFilesAt(wiz: Wizard, keysDir: string, existingDirs: set<string>,
                                         leaves: seq<Result<LeafBundle, string>>, i: nat, made: set<string>, j: nat)
    requires |leaves| == |wiz.serverOptions| && i <= j < |leaves|
    requires ServerCerts(wiz, keysDir, existingDirs, leaves, i, made).error.None?
    ensures leaves[j].Success?
    ensures var p := ServerCerts(wiz, keysDir, existingDirs, leaves, i, made);
      var user := NameKey(wiz.serverOptions[j]);
      p.writes[3 * (j - i)..3 * (j - i) + 3] == UserFiles(UserDir(keysDir, user), user, leaves[j].value, Ovpn(wiz, user))
    decreases j - i
  {
    var p := ServerCerts(wiz, keysDir, existingDirs, leaves, i, made);
    var user := NameKey(wiz.serverOptions[i]);
    var dir := UserDir(keysDir, user);
    assert leaves[i].Success?;
    var rest := ServerCerts(wiz, keysDir, existingDirs, leaves, i + 1, made + {dir});
    var files := UserFiles(dir, user, leaves[i].value, Ovpn(wiz, user));
    assert p.writes == files + rest.writes;
    if j > i {
      ServerFilesAt(wiz, keysDir, existingDirs, leaves, i + 1, made + {dir}, j);
      var n := 3 * (j - i - 1);
      assert p.writes[3 * (j - i)..3 * (j - i) + 3] == rest.writes[n..n + 3];
    } else {
      assert p.writes[0..3] == files;
    }
  }

  // ---------------------------------------------------------------------------
  // DH parameters
  // ---------------------------------------------------------------------------

  /** The DH parameters, or the error thrown, and the files written for them. */
  datatype DhOutcome = DhOutcome(pem: Result<string, string>, writes: seq<LocalWrite>)

  /** The static PEM in dev mode, otherwise the one `generateDHParams()`
      produces, saved unchanged as `dh.pem`. A failed prime search is a
      `Failure` here, but it stands for a promise that never settles: the
      run stops without a final record and the page stays busy. */
  function DhStep(m: Machine, k: Crypto): (r: DhOutcome)
    requires k.primeSearch.Some? ==> FullWidth(k.primeSearch.value)
    ensures m.isDev ==> r == DhOutcome(Success(StaticDhPem), [])
    ensures !m.isDev ==> (r.pem.Success? <==> k.primeSearch.Some?)
    ensures !m.isDev && r.pem.Success? ==>
      r.pem.value == GenerateDhParamsAsWritten(k.primeSearch, k.encode64).value
      && r.writes == [LocalWrite(DhPemFile(m), r.pem.value)]
  {
    if m.isDev then DhOutcome(Success(StaticDhPem), [])
    else
      match GenerateDhParamsAsWritten(k.primeSearch, k.encode64)
      case None => DhOutcome(Failure(k.primeSearchError), [])
      case Some(pem) => DhOutcome(Success(pem), [LocalWrite(DhPemFile(m), pem)])
  }

  // ---------------------------------------------------------------------------
  // The certificate part of a run
  // ---------------------------------------------------------------------------

  const ServerText := "Generating server certificates"
  const ClientText := "Generating client certificates"
  const DhText := "Generating dh pem"

  /** The material a completed certificate part hands on. */
  datatype Material = Material(ca: CaBundle, dhPem: string)

  datatype Built = Built(progress: Progress, material: Option<Material>)

  const NoProgress := Progress([], [], [], None)

  /** The server certificates once the CA is there; none when there are no
      server options. */
  function ServerPart(m: Machine, k: Crypto, wiz: Wizard, caStep: CaStep): (p: Progress)
    requires Valid(m.now)
    ensures |wiz.serverOptions| == 0 ==> p == NoProgress
    ensures caStep.ca.Success? && p.error.None? ==> OnePerServer(p, |wiz.serverOptions|)
  {
    if caStep.ca.Success? && |wiz.serverOptions| > 0 then
      ServerCerts(wiz, KeysDir(wiz.form, m.executableDir), m.existingDirs,
                  ServerLeaves(m, k, wiz, caStep.ca.value), 0, {})
    else NoProgress
  }

  /** The steps from the CA message to the DH parameters, stopping at the
      first error, given the outcome of each. */
  function Assemble(reuse: bool, caStep: CaStep, server: Progress, client: Result<seq<string>, string>,
                    dh: DhOutcome): (b: Built)
    ensures |b.progress.statuses| >= 1 && b.progress.statuses[0] == CaMessage(reuse)
    ensures b.progress.error.None? <==> b.material.Some?
    ensures b.material.Some? <==> caStep.ca.Success? && server.error.None? && client.Success? && dh.pem.Success?
  {
    var head := [CaMessage(reuse)];
    match caStep.ca
    case Failure(e) => Built(Progress(head, caStep.writes, [], Some(e)), None)
    case Success(ca) =>
      var upToServer := head + [ServerText] + server.statuses;
      if server.error.Some? then
        Built(Progress(upToServer, caStep.writes + server.writes, server.dirs, server.error), None)
      else
        match client
        case Failure(e) =>
          Built(Progress(upToServer + [ClientText], caStep.writes + server.writes, server.dirs, Some(e)), None)
        case Success(clientStatuses) =>
          var statuses := upToServer + [ClientText] + clientStatuses + [DhText];
          var writes := caStep.writes + server.writes + dh.writes;
          match dh.pem
          case Failure(e) => Built(Progress(statuses, writes, server.dirs, Some(e)), None)
          case Success(pem) => Built(Progress(statuses, writes, server.dirs, None), Some(Material(ca, pem)))
  }

  /** A completed certificate part posted the headings in order, with the
      server and client lines between them, and wrote the CA files, the
      server files and the DH file in that order. */
  lemma AssembledInOrder(reuse: bool, caStep: CaStep, server: Progress, client: Result<seq<string>, string>, dh: DhOutcome)
    requires Assemble(reuse, caStep, server, client, dh).material.Some?
    ensures var b := Assemble(reuse, caStep, server, client, dh);
      b.progress.statuses == [CaMessage(reuse), ServerText] + server.statuses + [ClientText] + client.value + [DhText]
      && b.progress.writes == caStep.writes + server.writes + dh.writes
      && b.progress.dirs == server.dirs
      && b.material.value == Material(caStep.ca.value, dh.pem.value)
  {
  }

  /** A failed CA step ends the run at its first status. */
  lemma AssembledCaFailure(reuse: bool, caStep: CaStep, server: Progress, client: Result<seq<string>, string>, dh: DhOutcome)
    requires caStep.ca.Failure?
    ensures Assemble(reuse, caStep, server, client, dh).progress
      == Progress([CaMessage(reuse)], caStep.writes, [], Some(caStep.ca.error))
  {
  }

  function BuildAll(m: Machine, k: Crypto, wiz: Wizard): (b: Built)
    requires WellFormed(m, k)
  {
    var caStep := ObtainCa(m, k, wiz);
    Assemble(wiz.reuseLocalCa, caStep, ServerPart(m, k, wiz, caStep), wiz.clientStep, DhStep(m, k))
  }

  // ---------------------------------------------------------------------------
  // generateConfigurations
  // ---------------------------------------------------------------------------

  const AutoText := "Auto configure using ssh settings"
  const AutoDoneText := "Auto configure done successfully"

  function AutoFailedText(message: string): string {
    "Auto configure failed : " + message + ". Please do the configuration manually"
  }

  /** A run: what the certificate part did, the values posted to
      `sshAutoConfigureOutput`, the router effects, and the record stored at
      the end (`None` when the run threw). */
  datatype Run = Run(progress: Progress, sshStatus: seq<string>, remote: seq<Effect>, result: Option<Output>)

  /** `runAutoConfig` configures the router with the SSH settings of the
      record as it was when the run started. */
  function AutoConfigure(before: Output, wiz: Wizard, r: Remote): Done<()> {
    AutoConfig(r.w, r.files, SshConfigsOf(before), wiz.vpn, r.fireWallText, DefaultConfigDir, r.temps)
  }

  /** The record stored by a finished run: the SSH fields as they were,
      the new artifacts, stage 2 and no status text. */
  function FinalOutput(before: Output, mat: Material, additional: Option<string>, fireWall: Option<string>): (o: Output) {
    Output(before.configuratorMode, before.sshServer, before.sshServerErrorText, before.sshPort,
           before.sshUsername, before.sshPassword,
           mat.ca.caCertPem, mat.ca.caPrivateKeyPem, mat.dhPem,
           additional, fireWall,
           Finished, "", before.ignoreConfigurationErrors, "")
  }

  /** The end of a run, given the certificate part and the outcome an
      auto-configuration would have: in SSH mode its status line and its
      outcome, caught, then the final record. */
  function Conclude(before: Output, b: Built, auto: Done<()>, additional: Option<string>, fireWall: Option<string>): (run: Run)
    ensures |run.sshStatus| >= 1 && run.sshStatus[0] == ""
    ensures run.result.Some? <==> b.material.Some?
    ensures run.progress.writes == b.progress.writes && run.progress.dirs == b.progress.dirs
  {
    match b.material
    case None => Run(b.progress, [""], [], None)
    case Some(mat) =>
      var out := FinalOutput(before, mat, additional, fireWall);
      if before.configuratorMode == "ssh" then
        var report := if auto.result.Success? then AutoDoneText else AutoFailedText(auto.result.error);
        Run(b.progress.(statuses := b.progress.statuses + [AutoText]), ["", report], auto.trace, Some(out))
      else Run(b.progress, [""], [], Some(out))
  }

  /** `generateConfigurations()`. */
  function GenerateConfigurations(before: Output, m: Machine, k: Crypto, wiz: Wizard, r: Remote): (run: Run)
    requires WellFormed(m, k)
  {
    Conclude(before, BuildAll(m, k, wiz), AutoConfigure(before, wiz, r), AdditionalConfig(wiz.vpn), wiz.fireWallConfig)
  }

  /** The record on screen after a run: the stored one, or, when the run
      threw, the record of its last status update. */
  function Displayed(before: Output, run: Run): (o: Output)
    requires |run.progress.statuses| >= 1
  {
    match run.result
    case Some(out) => out
    case None => UpdateState(before, run.progress.statuses[|run.progress.statuses| - 1])
  }

  /** How a run ends, given its certificate part: a failed part leaves the
      progress as it was and never contacts the router; a completed one
      stores the final record, and only in SSH mode adds the
      auto-configuration status, runs the router effects and reports their
      outcome, which does not decide whether the run finishes. */
  lemma ConcludedSsh(before: Output, b: Built, auto: Done<()>, additional: Option<string>, fireWall: Option<string>)
    ensures var run := Conclude(before, b, auto, additional, fireWall);
      && (b.material.None? ==> run.progress == b.progress && run.remote == [] && run.result.None?)
      && (b.material.Some? ==> run.result == Some(FinalOutput(before, b.material.value, additional, fireWall)))
      && (b.material.Some? && before.configuratorMode != "ssh" ==>
            run.remote == [] && run.sshStatus == [""] && run.progress.statuses == b.progress.statuses)
      && (b.material.Some? && before.configuratorMode == "ssh" ==>
            run.remote == auto.trace && run.progress.statuses == b.progress.statuses + [AutoText])
      && (b.material.Some? && before.configuratorMode == "ssh" && auto.result.Failure? ==>
            run.sshStatus == ["", AutoFailedText(auto.result.error)])
      && (b.material.Some? && before.configuratorMode == "ssh" && auto.result.Success? ==>
            run.sshStatus == ["", AutoDoneText])
  {
  }

  // ---------------------------------------------------------------------------
  // Properties of the certificate part
  // ---------------------------------------------------------------------------

  /** The statuses of a completed certificate part, in order: the CA
      message, the server heading and one line per server, the client
      heading and the client lines, and the DH heading. */
  predicate InOrder(s: seq<string>, reuse: bool, n: nat, client: seq<string>) {
    var c := |client|;
    && |s| == 4 + n + c
    && s[0] == CaMessage(reuse)
    && s[1] == ServerText
    && (forall j :: 0 <= j < n ==> s[2 + j] == ServerStatus(j))
    && s[2 + n] == ClientText
    && s[3 + n..3 + n + c] == client
    && s[3 + n + c] == DhText
  }

  /** Assembled steps post their statuses in order when the server step
      posted one line per server. */
  lemma AssembledStatuses(reuse: bool, caStep: CaStep, server: Progress, client: Result<seq<string>, string>,
                          dh: DhOutcome, n: nat)
    requires Assemble(reuse, caStep, server, client, dh).material.Some?
    requires OnePerServer(server, n)
    ensures client.Success?
    ensures InOrder(Assemble(reuse, caStep, server, client, dh).progress.statuses, reuse, n, client.value)
  {
    AssembledInOrder(reuse, caStep, server, client, dh);
    var c := |client.value|;
    var b := [CaMessage(reuse), ServerText] + server.statuses + [ClientText] + client.value + [DhText];
    assert forall j :: 0 <= j < n ==> b[2 + j] == server.statuses[j];
    assert b[3 + n..3 + n + c] == client.value;
  }

  /** The certificate part of a run posts its statuses in order: the first
      names what happens to the CA, then come the server, client and DH
      headings, with one line per server and the client lines between. */
  lemma StatusOrder(m: Machine, k: Crypto, wiz: Wizard)
    requires WellFormed(m, k)
    requires BuildAll(m, k, wiz).material.Some?
    ensures wiz.clientStep.Success?
    ensures InOrder(BuildAll(m, k, wiz).progress.statuses, wiz.reuseLocalCa, |wiz.serverOptions|, wiz.clientStep.value)
  {
    var caStep := ObtainCa(m, k, wiz);
    AssembledStatuses(wiz.reuseLocalCa, caStep, ServerPart(m, k, wiz, caStep), wiz.clientStep, DhStep(m, k),
                      |wiz.serverOptions|);
  }

  /** Reusing the local CA says so; every other choice builds a new one. */
  lemma CaMessageIffReuse(reuse: bool)
    ensures CaMessage(reuse) == ReuseText <==> reuse
  {
    assert ReuseText[0] != BuildText[0];
  }

  /** A completed part writes the CA step's files first and hands on its CA. */
  lemma AssembledCaFirst(reuse: bool, caStep: CaStep, server: Progress, client: Result<seq<string>, string>, dh: DhOutcome)
    requires Assemble(reuse, caStep, server, client, dh).material.Some?
    ensures var b := Assemble(reuse, caStep, server, client, dh);
      && |b.progress.writes| >= |caStep.writes|
      && b.progress.writes[..|caStep.writes|] == caStep.writes
      && b.material.value.ca == caStep.ca.value
  {
    AssembledInOrder(reuse, caStep, server, client, dh);
    assert (caStep.writes + server.writes + dh.writes)[..|caStep.writes|] == caStep.writes;
  }

  /** A run that builds a new CA writes both of its PEM files first, and
      hands that CA on to be stored. */
  lemma NewCaIsWritten(m: Machine, k: Crypto, wiz: Wizard)
    requires WellFormed(m, k) && !wiz.reuseLocalCa
    requires BuildAll(m, k, wiz).material.Some?
    ensures var b := BuildAll(m, k, wiz);
      var ca := BuildCA(k.forge, CaOptions(wiz.form), m.now, k.caKeyClock, k.caEntropy);
      && ca.Success?
      && b.progress.writes[..2] == [LocalWrite(CaCertFile(m), ca.value.caCertPem), LocalWrite(CaKeyFile(m), ca.value.caPrivateKeyPem)]
      && b.material.value.ca == ca.value
  {
    var caStep := ObtainCa(m, k, wiz);
    AssembledCaFirst(wiz.reuseLocalCa, caStep, ServerPart(m, k, wiz, caStep), wiz.clientStep, DhStep(m, k));
  }

  /** Reusing the local CA hands on the PEM texts read from disk. */
  lemma ReusedCaIsRead(m: Machine, k: Crypto, wiz: Wizard)
    requires WellFormed(m, k) && wiz.reuseLocalCa
    requires BuildAll(m, k, wiz).material.Some?
    ensures var b := BuildAll(m, k, wiz);
      && CaCertFile(m) in m.disk && CaKeyFile(m) in m.disk
      && b.material.value.ca.caCertPem == m.disk[CaCertFile(m)]
      && b.material.value.ca.caPrivateKeyPem == m.disk[CaKeyFile(m)]
  {
    var caStep := ObtainCa(m, k, wiz);
    AssembledCaFirst(wiz.reuseLocalCa, caStep, ServerPart(m, k, wiz, caStep), wiz.clientStep, DhStep(m, k));
  }

  /** When the local CA cannot be read, the swallowed error resurfaces as a
      certificate part that fails right after its first status, having
      written nothing. */
  lemma UnreadableCaStopsRun(m: Machine, k: Crypto, wiz: Wizard)
    requires WellFormed(m, k) && wiz.reuseLocalCa
    requires ReuseExistingCa(m, k.forge).None?
    ensures BuildAll(m, k, wiz) == Built(Progress([ReuseText], [], [], Some(NoCaText)), None)
  {
    var caStep := ObtainCa(m, k, wiz);
    AssembledCaFailure(wiz.reuseLocalCa, caStep, ServerPart(m, k, wiz, caStep), wiz.clientStep, DhStep(m, k));
  }

  /** Every status update leaves the page busy with the run button disabled. */
  lemma BusyWhileRunning(captured: Output, text: string, errors: bool)
    ensures !RunEnabled(UpdateState(captured, text), errors)
  {
  }

  /** The three writes at position `i` of the server step's writes come
      right after the CA files in a completed part. */
  lemma AssembledServerWrites(reuse: bool, caStep: CaStep, server: Progress, client: Result<seq<string>, string>,
                              dh: DhOutcome, i: nat)
    requires Assemble(reuse, caStep, server, client, dh).material.Some?
    requires i + 3 <= |server.writes|
    ensures var w := Assemble(reuse, caStep, server, client, dh).progress.writes;
      var at := |caStep.writes| + i;
      |w| >= at + 3 && w[at..at + 3] == server.writes[i..i + 3]
  {
    AssembledInOrder(reuse, caStep, server, client, dh);
    var at := |caStep.writes| + i;
    var w := caStep.writes + server.writes + dh.writes;
    assert w[at..at + 3] == server.writes[i..i + 3];
  }

  /** The server step of a successful part writes, for server `j`, its
      certificate, key and profile at positions 3j to 3j + 2, in the user's
      own directory under the keys directory. */
  lemma ServerPartFiles(m: Machine, k: Crypto, wiz: Wizard, caStep: CaStep, j: nat)
    requires Valid(m.now) && j < |wiz.serverOptions| && caStep.ca.Success?
    requires ServerPart(m, k, wiz, caStep).error.None?
    ensures var w := ServerPart(m, k, wiz, caStep).writes;
      var user := NameKey(wiz.serverOptions[j]);
      && ServerLeaf(m, k, wiz, caStep.ca.value, j).Success?
      && |w| >= 3 * j + 3
      && w[3 * j..3 * j + 3]
         == UserFiles(UserDir(KeysDir(wiz.form, m.executableDir), user), user,
                      ServerLeaf(m, k, wiz, caStep.ca.value, j).value, Ovpn(wiz, user))
  {
    var leaves := ServerLeaves(m, k, wiz, caStep.ca.value);
    ServerFilesAt(wiz, KeysDir(wiz.form, m.executableDir), m.existingDirs, leaves, 0, {}, j);
  }

  /** In dev mode the server certificates start a day early. */
  lemma DevServerCertsBackdated(m: Machine, wiz: Wizard, o: CertOption)
    requires Valid(m.now) && m.isDev
    ensures ServerCertOptions(wiz, o, ServerValidityStart(m)).validityStart == Some(PrevDay(m.now))
  {
  }

  /** A completed certificate part writes the CA files, then the server
      files, then the DH file, makes only the server step's directories,
      and hands on the CA and the DH parameters its steps produced. */
  lemma CertificatePartInOrder(m: Machine, k: Crypto, wiz: Wizard)
    requires WellFormed(m, k)
    requires BuildAll(m, k, wiz).material.Some?
    ensures var b := BuildAll(m, k, wiz);
      var ca := ObtainCa(m, k, wiz);
      var server := ServerPart(m, k, wiz, ca);
      && b.progress.writes == ca.writes + server.writes + DhStep(m, k).writes
      && b.progress.dirs == server.dirs
      && b.material.value == Material(ca.ca.value, DhStep(m, k).pem.value)
  {
    var caStep := ObtainCa(m, k, wiz);
    AssembledInOrder(wiz.reuseLocalCa, caStep, ServerPart(m, k, wiz, caStep), wiz.clientStep, DhStep(m, k));
  }

  // ---------------------------------------------------------------------------
  // Properties of the end of a run
  // ---------------------------------------------------------------------------

  /** Auto-configuration uses the record from before the run: the CA key it
      would upload is the one stored by the previous run, not the CA just
      built, and it connects on port 22 whatever the form says. */
  lemma AutoConfigUsesCapturedRecord(before: Output, wiz: Wizard, r: Remote)
    ensures AutoConfigure(before, wiz, r)
      == AutoConfig(r.w, r.files, SshConfigs(before.sshServer, before.sshUsername, before.sshPassword, before.sshPort,
                                             before.optStoreCaKeys, before.caPrivateKeyPem),
                    wiz.vpn, r.fireWallText, DefaultConfigDir, r.temps)
    ensures AutoConfigure(before, wiz, r).trace[0] == Connect(before.sshServer, before.sshUsername, SshUtils.DefaultPort)
  {
  }

  /** A finished run stores stage 2 with no status text, the CA and DH
      parameters of its certificate part and the generated configuration,
      keeps the SSH fields as they were, and enables the run button again
      unless there are settings errors that are not ignored. */
  lemma FinishedRunRecord(before: Output, b: Built, auto: Done<()>, additional: Option<string>, fireWall: Option<string>,
                          errors: bool)
    requires b.material.Some?
    ensures var run := Conclude(before, b, auto, additional, fireWall);
      var mat := b.material.value;
      && run.result.Some?
      && var o := run.result.value;
      && o.certificateStage == Finished && o.stateText == ""
      && o.caCertPem == mat.ca.caCertPem && o.caPrivateKeyPem == mat.ca.caPrivateKeyPem && o.dhParamsPem == mat.dhPem
      && o.additionalConfig == additional && o.ipTablesConfig == fireWall
      && o.configuratorMode == before.configuratorMode && o.sshServer == before.sshServer
      && o.sshServerErrorText == before.sshServerErrorText && o.sshPort == before.sshPort
      && o.sshUsername == before.sshUsername && o.sshPassword == before.sshPassword
      && o.ignoreConfigurationErrors == before.ignoreConfigurationErrors
      && (RunEnabled(o, errors) <==> !(errors && !before.ignoreConfigurationErrors))
      && RunCaption(o) == "Click me to run configurator"
  {
  }

  /** A run whose certificate part fails never contacts the router and
      leaves the page busy on the status it reached, with the previous
      artifacts still in the record. */
  lemma FailedRunStaysBusy(before: Output, b: Built, auto: Done<()>, additional: Option<string>, fireWall: Option<string>,
                           errors: bool)
    requires b.material.None? && |b.progress.statuses| >= 1
    ensures var run := Conclude(before, b, auto, additional, fireWall);
      && run.result.None? && run.remote == [] && |run.progress.statuses| >= 1
      && var o := Displayed(before, run);
      && o.certificateStage == Busy && !RunEnabled(o, errors)
      && o.stateText == b.progress.statuses[|b.progress.statuses| - 1]
      && o.caCertPem == before.caCertPem && o.caPrivateKeyPem == before.caPrivateKeyPem
  {
  }
}
