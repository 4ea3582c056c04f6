/** The reachability check under an address field (the router's public
    address on the VPN parameters page, the SSH server on the output page):
    a blank host is reported as required without probing; otherwise the
    field reads "being checked" until the probe answers. The timing of the
    debounce is not modelled, only the decisions taken at its two ends. */
module AddressCheck {
  import opened Wrappers
  import opened Strings

  const RequiredText := "This field is required"

  /** The three status texts. They are imported from a module that is not
      part of this model, so they are parameters; any of them may be
      `undefined` (`None`). */
  datatype StatusTexts = StatusTexts(beingChecked: Option<string>, reachable: Option<string>, notReachable: Option<string>)

  /** What starting a check does: the text it shows and whether it sends a probe. */
  datatype Start = Start(text: Option<string>, probe: bool)

  /** A host that is blank after trimming is not probed. */
  function StartCheck(texts: StatusTexts, host: string): (s: Start)
    ensures s.probe <==> exists i :: 0 <= i < |host| && !IsJsSpace(host[i])
    ensures !s.probe ==> s.text == Some(RequiredText)
    ensures s.probe ==> s.text == texts.beingChecked
  {
    if Trim(host) == "" then Start(Some(RequiredText), false) else Start(texts.beingChecked, true)
  }

  /** The text after the probe of `host` answers, when the field now holds
      `latestHost` and shows `current`. A dead answer about a host that is
      no longer the field's value only clears a "being checked" text. */
  function OnProbeResult(texts: StatusTexts, host: string, latestHost: string, current: Option<string>, isAlive: bool): (next: Option<string>)
    ensures isAlive ==> next == texts.reachable
    ensures !isAlive && host == latestHost ==> next == texts.notReachable
  {
    if isAlive then texts.reachable
    else if host == latestHost then texts.notReachable
    else if current == texts.beingChecked then None
    else current
  }

  /** A stale dead answer never shows a status of its own: the text stays,
      or is cleared exactly when it read "being checked". */
  lemma StaleAnswerOnlyClears(texts: StatusTexts, host: string, latestHost: string, current: Option<string>)
    requires host != latestHost
    ensures var next := OnProbeResult(texts, host, latestHost, current, false);
      (next == current <==> current != texts.beingChecked || current == None)
      && (next != current ==> next == None)
  {
  }

  /** Handling the same answer twice is handling it once. */
  lemma OnProbeResultIdempotent(texts: StatusTexts, host: string, latestHost: string, current: Option<string>, isAlive: bool)
    ensures var once := OnProbeResult(texts, host, latestHost, current, isAlive);
      OnProbeResult(texts, host, latestHost, once, isAlive) == once
  {
  }

  /** A check started on a non-blank host and answered while the host is
      unchanged ends on "reachable" or "not reachable", never on the
      "being checked" it started with. */
  lemma AnsweredCheckSettles(texts: StatusTexts, host: string, isAlive: bool)
    requires StartCheck(texts, host).probe
    ensures var next := OnProbeResult(texts, host, host, StartCheck(texts, host).text, isAlive);
      next == if isAlive then texts.reachable else texts.notReachable
  {
  }
}
