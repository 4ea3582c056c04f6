/** The wizard's top-level state: three pages walked through with Next and
    Back buttons or jumped to directly, a "finished" screen with a reset
    link, and the client card list kept as long as the chosen number of
    users. */
module Stepper {
  import opened Wrappers
  import opened Strings
  import opened Js
  import opened Options

  const NumberOfUsersKey := "numberOfUsers"

  /** The values the initial state reads from the environment module: the
      development flag, whether a CA is already on disk, the executable's
      directory and the discovered addresses. */
  datatype Env = Env(isDev: bool, caExists: bool, executableDir: string,
                     publicAddress: string, internalNetwork: string, routerInternalIP: string)

  /** The part of the component state this model follows. The snackbar, the
      SSH form fields and the status log are left out; `serverOptions` is
      never set and stays `undefined`. */
  datatype State = State(vpnParameters: Form, clientOptions: seq<CertOption>,
                         certificateStage: int, finished: bool, stepIndex: int)

  /** The card a new client gets: `{username: "client<i+1>"}`. */
  function DefaultClient(i: nat): CertOption {
    map[UsernameField := "client" + NatToString(i + 1)]
  }

  // ---------------------------------------------------------------------------
  // Initial state
  // ---------------------------------------------------------------------------

  function InitialUsers(isDev: bool): nat {
    if isDev then 3 else 1
  }

  /** The initial VPN parameters. */
  function InitialParameters(env: Env): (f: Form)
    ensures NumberOfUsersKey in f && f[NumberOfUsersKey] == Num(Finite(InitialUsers(env.isDev) as real))
    ensures "vpnPort" in f && f["vpnPort"] == Num(Finite(1194.0))
    ensures "optRouterMode" in f && f["optRouterMode"] == Text("DD-WRT")
    ensures "optRegenerateCA" in f && f["optRegenerateCA"] == Flag(!(env.isDev && env.caExists))
  {
    map[NumberOfUsersKey := Num(Finite(InitialUsers(env.isDev) as real)),
        "userKeysDir" := Text(env.executableDir),
        "keySize" := Num(Finite(2048.0)),
        "networkPublicIpOrDDNSAddressOfRouter" := Text(env.publicAddress),
        "vpnPort" := Num(Finite(1194.0)),
        "internalNetwork" := Text(env.internalNetwork),
        "routerInternalIP" := Text(env.routerInternalIP),
        "networkSegment" := Text("10.0.8.0"),
        "subnetMask" := Text("255.255.255.0"),
        "optRouterMode" := Text("DD-WRT"),
        "optRegenerateCA" := Flag(!(env.isDev && env.caExists)),
        "optStartWithWANUp" := Flag(true),
        "optUseUDP" := Flag(true),
        "optSendLANTrafficOnly" := Flag(true),
        "optCertificateOnlyAuth" := Flag(true),
        "optPrependClientOutputFileNameWithIPDDNSName" := Flag(false)]
  }

  /** The state the wizard opens in: first page, not finished, no
      certificates generated, one client (three in development). */
  function Initial(env: Env): (s: State)
    ensures s.stepIndex == 0 && !s.finished && s.certificateStage == 0
    ensures ListMatchesCount(s)
  {
    var clients :=
      if env.isDev then [DefaultClient(0), DefaultClient(1), DefaultClient(2)]
      else [DefaultClient(0)];
    State(InitialParameters(env), clients, 0, false, 0)
  }

  // ---------------------------------------------------------------------------
  // Resizing the client list
  // ---------------------------------------------------------------------------

  /** A number of users as the page's drop-down stores it: a whole number. */
  predicate IsCount(v: Value) {
    v.Num? && v.n.Finite? && v.n.r >= 0.0 && v.n.r.Floor as real == v.n.r
  }

  function CountOf(v: Value): nat
    requires IsCount(v)
  {
    v.n.r.Floor
  }

  /** The client list resized to `n`: the first `n` cards kept, missing
      ones filled with default cards. */
  function Resized(clients: seq<CertOption>, n: nat): (r: seq<CertOption>) {
    seq(n, i requires 0 <= i < n => if i < |clients| then clients[i] else DefaultClient(i))
  }

  /** The list as long as the number of users the parameters hold. */
  predicate ListMatchesCount(s: State) {
    NumberOfUsersKey in s.vpnParameters && IsCount(s.vpnParameters[NumberOfUsersKey])
    && |s.clientOptions| == CountOf(s.vpnParameters[NumberOfUsersKey])
  }

  /** The resize as the handler performs it: `slice(0, n)`, then, when the
      list came out short, the last slot assigned (leaving holes) and every
      empty slot filled with its default card. */
  method ResizeClients(clients: seq<CertOption>, n: nat) returns (r: seq<CertOption>)
    ensures |r| == n
    ensures forall i :: 0 <= i < n && i < |clients| ==> r[i] == clients[i]
    ensures forall i :: |clients| <= i < n ==> r[i] == DefaultClient(i)
    ensures r == Resized(clients, n)
  {
    var kept := if n < |clients| then clients[..n] else clients;
    if |kept| < n {
      var slots: seq<Option<CertOption>> :=
        seq(n, i requires 0 <= i < n => if i < |kept| then Some(kept[i]) else None);
      slots := slots[n - 1 := Some(DefaultClient(n - 1))];
      var idx := 0;
      while idx < n
        invariant 0 <= idx <= n && |slots| == n
        invariant forall i :: 0 <= i < n ==>
          slots[i] == if i < |kept| then Some(kept[i])
                      else if i < idx || i == n - 1 then Some(DefaultClient(i))
                      else None
      {
        if slots[idx].None? {
          slots := slots[idx := Some(DefaultClient(idx))];
        }
        idx := idx + 1;
      }
      r := seq(n, i requires 0 <= i < n => slots[i].GetOr(DefaultClient(i)));
    } else {
      r := kept;
    }
  }

  /** `handleVpnParametersChange(vpnParameters)`: the parameters replaced
      wholesale, and the client list resized when the number of users
      differs (by `!==`) from the one stored before. The drop-down only
      offers whole numbers. */
  function ParametersChanged(s: State, params: Form): (t: State)
    requires NumberOfUsersKey in params && IsCount(params[NumberOfUsersKey])
    ensures t.vpnParameters == params
    ensures t.stepIndex == s.stepIndex && t.finished == s.finished && t.certificateStage == s.certificateStage
    ensures ListMatchesCount(s) ==> ListMatchesCount(t)
  {
    var count := params[NumberOfUsersKey];
    var same := NumberOfUsersKey in s.vpnParameters && s.vpnParameters[NumberOfUsersKey] == count;
    s.(vpnParameters := params,
       clientOptions := if same then s.clientOptions else Resized(s.clientOptions, CountOf(count)))
  }

  /** An unchanged number of users leaves the list as it was. */
  lemma SameCountKeepsClients(s: State, params: Form)
    requires NumberOfUsersKey in params && IsCount(params[NumberOfUsersKey])
    requires NumberOfUsersKey in s.vpnParameters && s.vpnParameters[NumberOfUsersKey] == params[NumberOfUsersKey]
    ensures ParametersChanged(s, params).clientOptions == s.clientOptions
  {
  }

  /** A changed number of users `n` gives a list of length `n` keeping the
      old cards below both lengths and a default card at each new index. */
  lemma NewCountResizes(s: State, params: Form)
    requires NumberOfUsersKey in params && IsCount(params[NumberOfUsersKey])
    requires NumberOfUsersKey !in s.vpnParameters || s.vpnParameters[NumberOfUsersKey] != params[NumberOfUsersKey]
    ensures var n := CountOf(params[NumberOfUsersKey]);
      var r := ParametersChanged(s, params).clientOptions;
      |r| == n
      && (forall i :: 0 <= i < n && i < |s.clientOptions| ==> r[i] == s.clientOptions[i])
      && (forall i :: |s.clientOptions| <= i < n ==> r[i] == DefaultClient(i))
  {
  }

  /** Resizing to the list's own length changes nothing. */
  lemma ResizedToOwnLength(clients: seq<CertOption>)
    ensures Resized(clients, |clients|) == clients
  {
  }

  /** Resizing twice to the same length is resizing once. */
  lemma ResizedIdempotent(clients: seq<CertOption>, n: nat)
    ensures Resized(Resized(clients, n), n) == Resized(clients, n)
  {
  }

  /** Cards cut off by shrinking the list are gone: growing it again brings
      back default cards, not the old ones. */
  lemma ShrinkThenGrow(clients: seq<CertOption>, m: nat, n: nat)
    requires m <= n
    ensures forall i :: m <= i < n ==> Resized(Resized(clients, m), n)[i] == DefaultClient(i)
    ensures forall i :: 0 <= i < m && i < |clients| ==> Resized(Resized(clients, m), n)[i] == clients[i]
  {
  }

  /** The default card names are pairwise distinct. */
  lemma DefaultNamesDistinct(i: nat, j: nat)
    requires i != j
    ensures NameKey(DefaultClient(i)) != NameKey(DefaultClient(j))
  {
    NatToStringCanonical(i + 1);
    NatToStringCanonical(j + 1);
    var a := NameKey(DefaultClient(i));
    var b := NameKey(DefaultClient(j));
    assert a[6..] == NatToString(i + 1);
    assert b[6..] == NatToString(j + 1);
  }

  /** A list made of default cards only has no duplicate flag: in particular
      the cards a resize adds never clash with one another. */
  lemma DefaultListUnflagged(n: nat, idx: nat)
    requires idx < n
    ensures ErrorText(Resized([], n), idx) == ""
  {
    var r := Resized([], n);
    DuplicateIffShared(r, idx);
    if exists j :: 0 <= j < |r| && j != idx && NameKey(r[j]) == NameKey(r[idx]) {
      var j :| 0 <= j < |r| && j != idx && NameKey(r[j]) == NameKey(r[idx]);
      DefaultNamesDistinct(j, idx);
    }
  }

  /** The initial list is the empty list resized to the initial number of users. */
  lemma InitialListIsResized(env: Env)
    ensures Initial(env).clientOptions == Resized([], InitialUsers(env.isDev))
  {
  }

  /** Editing a card keeps the list as long as the number of users. */
  lemma EditKeepsCount(s: State, idx: nat, field: string, value: string)
    requires ListMatchesCount(s) && idx < |s.clientOptions|
    ensures ListMatchesCount(s.(clientOptions := EditOption(s.clientOptions, idx, field, value)))
  {
  }

  // ---------------------------------------------------------------------------
  // Navigation
  // ---------------------------------------------------------------------------

  /** `handleNext`: one step on; finishing is clicking Next on the last page. */
  function HandleNext(s: State): (t: State)
    ensures t.stepIndex == s.stepIndex + 1
    ensures t.finished <==> s.stepIndex >= 2
    ensures t.vpnParameters == s.vpnParameters && t.clientOptions == s.clientOptions
  {
    s.(stepIndex := s.stepIndex + 1, finished := s.stepIndex >= 2)
  }

  /** `handlePrev`: one step back, never below the first page. */
  function HandlePrev(s: State): (t: State)
    ensures s.stepIndex >= 0 ==> t.stepIndex >= 0
    ensures s.stepIndex > 0 ==> t.stepIndex == s.stepIndex - 1
    ensures s.stepIndex <= 0 ==> t == s
    ensures t.finished == s.finished
  {
    if s.stepIndex > 0 then s.(stepIndex := s.stepIndex - 1) else s
  }

  /** Back after Next returns to the page left, before the last page. */
  lemma NextThenBack(s: State)
    requires 0 <= s.stepIndex < 2 && !s.finished
    ensures HandlePrev(HandleNext(s)) == s
  {
  }

  /** The rerun link: back to the first page, not finished. */
  function Reset(s: State): (t: State)
    ensures t.stepIndex == 0 && !t.finished
    ensures t.vpnParameters == s.vpnParameters && t.clientOptions == s.clientOptions
    ensures t.certificateStage == s.certificateStage
  {
    s.(stepIndex := 0, finished := false)
  }

  /** What the content area shows. */
  datatype Content = ParametersPage | OptionsPage | OutputPage | LostPage | RerunLink

  function Shown(s: State): (c: Content)
    ensures c == RerunLink <==> s.finished
  {
    if s.finished then RerunLink
    else if s.stepIndex == 0 then ParametersPage
    else if s.stepIndex == 1 then OptionsPage
    else if s.stepIndex == 2 then OutputPage
    else LostPage
  }

  /** A click: Next, Back, one of the three step buttons, or the rerun link. */
  datatype Click = Next | Back | StepButton(k: nat) | Rerun

  /** Whether the clicked control is on screen and enabled. Next and Back
      are only drawn while not finished, Back is disabled on the first
      page, the rerun link is only drawn when finished, and there are three
      step buttons. */
  predicate Enabled(s: State, c: Click) {
    match c
    case Next => !s.finished
    case Back => !s.finished && s.stepIndex != 0
    case StepButton(k) => k < 3
    case Rerun => s.finished
  }

  function Apply(s: State, c: Click): State {
    if !Enabled(s, c) then s
    else match c
      case Next => HandleNext(s)
      case Back => HandlePrev(s)
      case StepButton(k) => s.(stepIndex := k)
      case Rerun => Reset(s)
  }

  function Run(s: State, clicks: seq<Click>): State
    decreases |clicks|
  {
    if |clicks| == 0 then s else Run(Apply(s, clicks[0]), clicks[1..])
  }

  /** The step index stays within the pages, and lies past the last page
      only on the finished screen. */
  predicate InRange(s: State) {
    0 <= s.stepIndex <= 3 && (s.stepIndex == 3 ==> s.finished)
  }

  lemma ApplyInRange(s: State, c: Click)
    requires InRange(s)
    ensures InRange(Apply(s, c))
  {
  }

  /** From the initial state no sequence of clicks leads to the fallback
      "long way from home" content, and the step index never goes negative. */
  lemma {:induction false} NeverLost(s: State, clicks: seq<Click>)
    requires InRange(s)
    ensures InRange(Run(s, clicks)) && Shown(Run(s, clicks)) != LostPage
    decreases |clicks|
  {
    if |clicks| > 0 {
      ApplyInRange(s, clicks[0]);
      NeverLost(Apply(s, clicks[0]), clicks[1..]);
    }
  }

  lemma InitialInRange(env: Env)
    ensures InRange(Initial(env))
  {
  }

  /** The Next button reads "Finish" exactly on the last page, the one where
      clicking it finishes. */
  function NextLabel(stepIndex: int): (caption: string)
    ensures caption == "Finish" <==> stepIndex == 2
  {
    if stepIndex == 2 then "Finish" else "Next"
  }

  lemma FinishLabelFinishes(s: State)
    requires InRange(s) && !s.finished
    ensures HandleNext(s).finished <==> NextLabel(s.stepIndex) == "Finish"
  {
  }
}
