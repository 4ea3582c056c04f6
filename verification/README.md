# DD-WRT / EdgeRouter OpenVPN certificate wizard, modelled in Dafny

The wizard is a three-page desktop application. On the first page the user
describes the VPN: the router's public address, the VPN port, the internal
network, the VPN client subnet, the router mode (DD-WRT or EdgeRouter) and
whether to reuse a CA. On the second page the user names the client
certificates. The third page, "Configurator Output", does the work:

- it builds or reuses a root CA;
- it issues server and client certificates signed by that CA;
- it writes them, with one `.ovpn` profile per user, under the user-keys directory;
- it produces Diffie-Hellman parameters;
- it renders the OpenVPN server settings and firewall rules for the router;
- on an EdgeRouter, it can optionally push everything over SSH. A pre-flight
  check of the router comes first, covering firmware, tunnel interface and
  port forward.

This project models that core as pure Dafny functions over immutable data.
Everything the program reaches outside itself is a parameter:

- the crypto library (`Forge`, `Crypto`);
- the file system (`Machine`);
- the SSH session and ping (`World`, `Remote`);
- the clock: `now` for the read when a build starts, and `later`
  (`caKeyClock`, `leafKeyClock`) for the read once a key pair is generated;
- randomness (`entropy`, `primeSearch`).

An asynchronous step is a function that returns the trace of effects it
attempted and its outcome (`Done`, `Flow`, `Progress`). JavaScript's value
semantics are written out where the program depends on them:

- truthiness;
- `Number()` of a text;
- `>>> 0`;
- `String.prototype.match`;
- the regular expression of the address fields;
- `Date.setFullYear` roll-over.

Modules, one per concern of the program:

- `Wrappers`, `Strings`, `Js`: results and options, string functions with JavaScript meaning, JavaScript values and `Number()`.
- `Calendar`: the `Date` arithmetic the validity periods use.
- `Der`, `Pem`, `DhParams`: the DER and PEM encodings behind `dh.pem`.
- `Certificates`: `certificate-utils.js`, key pairs, the CA and leaf certificates, reading a CA back.
- `Subnet`, `VpnConfig`: `subnetMaskToCidrPrefix` and the rendered router texts of `vpn-utils.js`.
- `Validation`, `VpnParameters`, `AddressCheck`: the input checks and change handlers of the parameters page.
- `Options`: the server and client option cards.
- `Stepper`: the top-level wizard state and its navigation.
- `SshUtils`, `Preflight`: `ssh-utils.js`, the upload, the command scripts, auto-configuration and the pre-flight check.
- `Configurator`: the run of the configurator page.

Decisions worth knowing when reading the model:

- The port-forward check compares the rule's forward target with the router's
  *public* address and the VPN port. This is what `checkSSHConfig` does; a
  description of the system that says "internal address" does not match it.
- `autoConfigViaSSH` connects on the default SSH port 22 whatever port the
  user entered. It also ignores its `configDir` argument: the upload and the
  scripts use `/config/auth`.
- The page never sets `optStoreCaKeys`. Auto-configuration receives the
  configurator record captured when the run started, so the CA key PEM it
  uploads (if any) is the one shown before the run.
- When reusing the local CA fails (a file is missing or unreadable), the
  program's destructuring throws and the run stops. The page stays busy and
  shows the last status text, and nothing else happens.
- A fresh CA's certificate and key are always written to the local CA files.

## Model

| member | source | states |
|---|---|---|
| Certificates.RemoveCarriageReturns | src/certificate-utils.js:6-8 | the result is never longer than the input; with `AddCarriageReturns` it forms a round trip (see below) |
| Certificates.RemoveAddCarriageReturns | src/certificate-utils.js:6-8 | turning every LF of a text into CRLF and then applying `removeCarriageReturns` gives the text back |
| Certificates.AddRemoveCarriageReturns | src/certificate-utils.js:6-8 | a text whose CRs all precede LFs and whose LFs all follow CRs is given back by removing and re-adding the CRs |
| Certificates.RemoveCarriageReturnsClean | src/certificate-utils.js:6-8 | when every CR precedes an LF, the result has no CR and is shorter by exactly the number of CRs |
| Certificates.LoneCarriageReturnKept | src/certificate-utils.js:6-8 | only CRLF pairs are rewritten: in `"\r\r\n"` the first CR survives |
| Certificates.SubjectAttributes | src/certificate-utils.js:68-73 | the subject lists exactly the six listed attribute names whose option is truthy, each with the option's value, in the listed order |
| Certificates.SubjectHasNoEmail | src/certificate-utils.js:68-73 | no `emailAddress` ever reaches a subject, although the parameters page collects an e-mail |
| Certificates.SubjectOnlyReadsListedKeys | src/certificate-utils.js:68-73 | two option objects that agree on the six listed keys give the same subject |
| Certificates.GenerateKeyPair | src/certificate-utils.js:11-30 | fails exactly when key generation fails; otherwise the returned keys are the generated ones, and the PEM is the encrypted PEM when a truthy password is given and the plain PEM otherwise, with CRLF normalised to LF |
| Certificates.GeneratedKeyPemHasNoCarriageReturn | src/certificate-utils.js:22-25 | a successfully generated key's PEM contains no CR |
| Certificates.ValidityOf | src/certificate-utils.js:59-65 | notBefore is the given start or the clock read when the build starts; notAfter is the given end, or else a valid date in the year after notBefore's year, on the month, day and time of the second clock read taken after key generation, unless that read falls on 29 February |
| Certificates.DefaultValidityIsOneYear | src/certificate-utils.js:60-65 | with neither start nor end given, outside 29 February, notAfter is the second clock read moved to the year after the start's year; only when both reads fall on the same instant is the certificate valid for exactly one year |
| Certificates.KeyGenerationAcrossNewYear | src/certificate-utils.js:50-64 | a start at 23:59:59 on 31 December with the key pair ready at 00:00:01 on 1 January gives a certificate valid for two seconds |
| Certificates.DevStartAcrossNewYear | src/certificate-utils.js:63-64 | notAfter takes now's day and month and only the year from notBefore: a start of 31 Dec 2025 at 1 Jan 2026 yields an end of 1 Jan 2026, one day after the start |
| Certificates.CaCertificate | src/certificate-utils.js:52-129 | the CA has serial "01", issuer equal to subject, the six CA extensions with `cA` true, the generated public key, is signed with its own private key, and starts at the given start or now |
| Certificates.BuildCA | src/certificate-utils.js:42-135 | fails exactly when key generation fails; on success the bundle holds the self-signed serial-01 CA, its key, the unencrypted key PEM and the certificate PEM, both with CRLF normalised; notBefore is the start option or the first clock read, and notAfter comes from the read after key generation |
| Certificates.LeafCertificate | src/certificate-utils.js:149-225 | a leaf has no serial and no extensions, is issued by the CA's subject, carries the leaf's own subject and public key, and is signed with the CA's private key |
| Certificates.BuildClientCertificate | src/certificate-utils.js:138-231 | fails exactly when key generation fails; on success the leaf's fields are as above, its validity follows the options with notAfter taken from the clock read after key generation, its key PEM is the (possibly encrypted) generated PEM, and its certificate PEM is the library's, without CR normalisation |
| Certificates.ReadExistingCA | src/certificate-utils.js:32-39 | succeeds exactly when both PEMs parse; a key that does not parse gives that parse error; on success it returns the parsed certificate and key |
| Certificates.ReadBackBuiltCA | src/certificate-utils.js:32-135 | if the library's PEM readers invert its writers, reading back a built CA's two PEMs gives the built certificate and key |
| Certificates.LeafFromReadBackCA | src/certificate-utils.js:138-231 | a leaf issued from a CA read back from its PEMs is identical to one issued from the CA as built |
| Certificates.LeafIssuerIsCaSubject | src/certificate-utils.js:173 | a leaf's issuer is the CA's subject, which is also the CA's issuer, and both are signed with the same key |
| Calendar.DaysInMonth | src/certificate-utils.js:63-64 | a month has 28 to 31 days, and 29 exactly for February of a leap year |
| Calendar.NextDay | src/ConfiguratorOutput.js:127-130 | the next day is a valid date at the same time of day |
| Calendar.PrevDay | src/ConfiguratorOutput.js:127-130 | `setDate(getDate() - 1)` gives a valid date at the same time of day |
| Calendar.PrevDayNextDay | src/ConfiguratorOutput.js:127-130 | stepping back one day and forward one day, in either order, gives the date back |
| Calendar.SetFullYear | src/certificate-utils.js:63-64 | the year is set and the time kept; the day and month are kept when the day exists in the new year, and otherwise 29 February rolls over to 1 March |
| Calendar.SetFullYearRoundTrip | src/certificate-utils.js:63-64 | setting another year and then the original year gives the date back, unless 29 February is moved to a non-leap year |
| Calendar.LeapDayRollsOver | src/certificate-utils.js:63-64 | 29 Feb 2024 moved to 2025 becomes 1 Mar 2025 |
| DhParams.DhParameterAsWritten | src/certificate-utils.js:252-256 | the values handed to `asn1.create`: the prime's bare big-endian bytes, which spell the prime, and the generator as the four bytes `00 00 00 02` of a 32-bit integer (Finding 3) |
| Der.WrittenInteger | src/certificate-utils.js:260 | the library's DER writer drops at most one redundant leading 0x00 or 0xFF from INTEGER contents; the signed value is unchanged and minimal contents are kept as they are |
| DhParams.WrittenDhParameter | src/certificate-utils.js:252-260 | the INTEGER contents the program's DER carries have the same signed values as the values built, and are no longer |
| DhParams.AsWrittenPrimeIsNegative | src/certificate-utils.js:254 | with the prime's bytes used unpadded as INTEGER contents, the prime INTEGER of the program's DER reads back as the negative number prime − 2^2048 for every full-width 2048-bit prime |
| DhParams.AsWrittenBaseIsNotMinimal | src/certificate-utils.js:255 | the generator INTEGER of the program's DER has the contents `00 00 02` (the writer drops one of the four bytes' zeros): it reads back as 2 but is not a minimal DER INTEGER encoding |
| DhParams.DhParamsDerAsWritten | src/certificate-utils.js:252-260 | the DER the program writes parses as one SEQUENCE of two INTEGERs holding exactly those contents |
| DhParams.AsWrittenDerShape | src/certificate-utils.js:252-260 | unless the prime's first byte is 0xFF, that DER is 269 bytes opening `30 82 01 09 02 82 01 00` and ending `02 03 00 00 02`, the same header and tail as the static PEM's DER |
| DhParams.GenerateDhParamsAsWritten | src/certificate-utils.js:233-266 | the program's DH PEM exists exactly when the prime search succeeds; it is the "DH PARAMETERS" PEM of the base64 of a DER that parses to a negative prime and the base contents `00 00 02` |
| DhParams.DhParameterOf | src/certificate-utils.js:252-256 | corrected encoding: both integers are minimal DER encodings whose signed value is the prime and 2 |
| DhParams.DhParameterSize | src/certificate-utils.js:236 | a 2048-bit prime takes 257 content bytes (a leading zero) and the generator one byte |
| DhParams.DhParamsDer | src/certificate-utils.js:260 | parsing the DER of the corrected parameter gives the parameter back |
| DhParams.GenerateDhParams | src/certificate-utils.js:233-266 | the corrected PEM exists exactly when the prime search succeeds, and it is the PEM framing of the base64 of the corrected DER |
| DhParams.GeneratedPemFraming | src/certificate-utils.js:261 | the PEM the program generates is the "DH PARAMETERS" BEGIN line, the base64 body cut into 64-character lines that concatenate back to the body, and the END line, each ended by CRLF; removing the carriage returns gives the same framing with LF |
| DhParams.StaticDhPemIsFrame | src/certificate-utils.js:269-276 | the static development PEM is a "DH PARAMETERS" frame around six body lines |
| DhParams.StaticDhPemFraming | src/certificate-utils.js:269-276 | the static PEM's body lines are full 64-character lines but the last, and the PEM equals the library's encoding of their concatenation, less the final line break |
| DhParams.StaticDhPrimeIsNegative | src/certificate-utils.js:270 | the static PEM's prime has a 256-byte INTEGER whose first byte is 0x8A, so it too is negative as DER |
| DhParams.StaticDhBaseIsNotMinimal | src/certificate-utils.js:275 | the static PEM's generator is the non-minimal `00 00 02` |
| Der.UnsignedRoundTrip | src/certificate-utils.js:254 | reading back the big-endian bytes of a number gives the number |
| Der.SignedValue | src/certificate-utils.js:254 | DER reads an INTEGER whose first byte has the top bit set as negative |
| Der.EncodeInteger | src/certificate-utils.js:253-256 | the encoding of a natural number is a minimal INTEGER whose signed value is that number |
| Der.LengthRoundTrip | src/certificate-utils.js:260 | parsing an encoded DER length gives the length and the number of bytes it took |
| Der.TlvRoundTrip | src/certificate-utils.js:260 | parsing a tag-length-value encoding gives the contents and the rest of the input |
| Pem.ChunksFill | src/certificate-utils.js:261 | cutting a non-empty body at a width gives full lines but the last, which concatenate back to the body |
| Pem.ChunksOfFilled | src/certificate-utils.js:261 | cutting the concatenation of such lines again gives the same lines |
| Subnet.SubnetMaskToCidrPrefix | src/utils.js:151-158 | the prefix is the sum, over the digit runs of the mask, of the one-bits of each run's value taken modulo 2^32 |
| Subnet.BinaryOnes | src/utils.js:155 | the count of '1' characters in a number's binary text is the number's population count |
| Subnet.NoDigitsNoRuns | src/utils.js:152-157 | a mask without digits has no runs and gives prefix 0, the `\|\| []` fallback |
| Subnet.DottedQuad | src/utils.js:151-158 | for a dotted quad of octets, the prefix is the sum of the octets' one-bits and at most 32 |
| Subnet.ClassCMask | src/utils.js:151-158 | "255.255.255.0" gives 24 |
| Subnet.GappedMask | src/utils.js:151-158 | "255.0.255.0" gives 16: the bits are counted, not checked for contiguity |
| Js.ToUint32OfNat | src/utils.js:155 | `>>> 0` of a natural number is that number modulo 2^32 |
| Js.DigitsToNumber | src/VPNParameters.js:52 | `Number` of a decimal digit string without a radix prefix is its decimal value |
| VpnConfig.ModesExclusive | src/vpn-utils.js:4-5 | no router mode is both DD-WRT and EdgeRouter |
| VpnConfig.DdWrtOptions | src/vpn-utils.js:14-24 | the option block starts with the push-route line and holds no empty line |
| VpnConfig.RedirectGatewayPresent | src/vpn-utils.js:19 | the redirect-gateway line is present exactly when LAN-only traffic is off |
| VpnConfig.ProtocolPresent | src/vpn-utils.js:22 | `proto udp` is present exactly when UDP is chosen, `proto tcp` exactly when it is not |
| VpnConfig.PortSetting | src/vpn-utils.js:21 | a `port` line appears only for a non-default port, and then names that port |
| VpnConfig.DdWrtConfigLines | src/vpn-utils.js:10-33 | read line by line, the DD-WRT text is the option block, one empty line and the four file lines |
| VpnConfig.EdgeSubnetSetting | src/vpn-utils.js:45-49 | the subnet line names the VPN network with the mask's prefix length (followed by a trailing space) |
| VpnConfig.EdgePushRouteSetting | src/vpn-utils.js:50 | the pushed route is the internal network as a /24 |
| VpnConfig.EdgeNameServerSetting | src/vpn-utils.js:51 | the name server is the router's internal address |
| VpnConfig.EdgeCaCertSetting | src/vpn-utils.js:53 | the CA certificate file is `ca.crt` in the configuration directory |
| VpnConfig.EdgeCertSetting | src/vpn-utils.js:54 | the server certificate file is also `ca.crt` |
| VpnConfig.EdgeKeySetting | src/vpn-utils.js:55 | the key file is `ca.key` |
| VpnConfig.EdgeDhSetting | src/vpn-utils.js:56 | the DH file is `dh.pem` |
| VpnConfig.EdgeTlsFilesInConfigDir | src/vpn-utils.js:53-56 | all four TLS files lie in the configuration directory |
| VpnConfig.EdgeRouterConfigLines | src/vpn-utils.js:35-57 | read line by line, the EdgeRouter text is exactly its nine command lines in the given or default directory |
| VpnConfig.EdgeRouterDefaultDir | src/vpn-utils.js:59-64 | the server settings shown for an EdgeRouter use `/config/auth` |
| VpnConfig.DdWrtRulesShareCidr | src/vpn-utils.js:78-86 | the forward rule and the masquerade rule name the same VPN CIDR |
| VpnConfig.EdgeFirewallPort | src/vpn-utils.js:88-93 | every firewall line edits rule 30, and the rule's destination port is the VPN port |
| VpnConfig.EdgeFirewallAlwaysUdp | src/vpn-utils.js:92 | the rule's protocol is udp whatever the UDP option says |
| VpnConfig.AdditionalConfig | src/vpn-utils.js:59-65 | the server text exists exactly in the two known modes: the DD-WRT text in DD-WRT mode, the EdgeRouter text with the default directory in EdgeRouter mode |
| VpnConfig.IpTablesConfig | src/vpn-utils.js:69-75 | the firewall text exists exactly in the two known modes, with the rules of that mode |
| Validation.IsAsciiMeaning | src/utils.js:78-80 | a text passes the ASCII test exactly when every code is at most 0x7F, or 0xFF in extended mode; the empty text passes |
| Validation.AsciiIsExtended | src/utils.js:78-80 | a text that passes the strict test passes the extended one |
| Validation.EditField | src/utils.js:98 | an edit changes the form only when the value is ASCII and accepted by the validator, if there is one; an ASCII value with no validator is always stored |
| Validation.FieldValue | src/utils.js:97 | the shown value is the stored one when truthy, the empty text otherwise |
| Validation.ErrorText | src/utils.js:100-104 | "required" wins over "pattern", which wins over the checker's message |
| Validation.ErrorTextSilent | src/utils.js:100-104 | no error is shown exactly when the field is filled or optional, matches its pattern if any, and its checker is silent |
| Validation.IsIpAddressIffDottedQuad | src/VPNParameters.js:39 | corrected address test (Finding 2): it accepts exactly the dotted-quad texts of four octets, and accepts nothing the written pattern rejects |
| Validation.AsWrittenAcceptsFiveOctets | src/VPNParameters.js:39 | the pattern as written, searched unanchored at the start, accepts "10.0.0.0.1" |
| Validation.PortValidatorDigits | src/VPNParameters.js:52 | a digit-only port is accepted exactly when its value is between 1 and 65535 |
| Validation.PortValidator | src/VPNParameters.js:52 | an accepted port text is a number |
| Validation.InternalNetworkChecker | src/VPNParameters.js:56-57 | the warning appears for a non-empty text not ending in ".0" and never for one ending in ".0" |
| Validation.InternalNetworkErrors | src/VPNParameters.js:55-58 | for a valid address, the internal-network field shows nothing when it ends in ".0" and the network-address warning otherwise |
| Validation.PortField | src/VPNParameters.js:45-54 | the port field is required and has a validator |
| Validation.AddressField | src/VPNParameters.js:66-74 | the address fields are required and pattern-checked, with no checker or validator |
| Validation.AddressFieldSilent | src/utils.js:101 | an address field shows no error exactly when its text is non-empty and the pattern as written matches somewhere in it (`RegExp.test`) |
| Validation.AddressFieldAcceptsFiveOctets | src/VPNParameters.js:39 | the page accepts "10.0.0.0.1" in an address field, although it is not an address (Finding 2) |
| VpnParameters.RouterIpOf | src/VPNParameters.js:90-92 | the router address is the network address with its final "0" replaced by "1" |
| VpnParameters.RouterIpOfAddress | src/VPNParameters.js:89-93 | for a dotted-quad network ending in ".0", the router address is the same quad ending in ".1" |
| VpnParameters.HandleChange | src/VPNParameters.js:85-107 | an edit is applied unless a non-text value is typed into the internal network (the program would throw); it asks for a key-file path change exactly for the user-keys directory |
| VpnParameters.HandleChangeFrame | src/VPNParameters.js:85-107 | the edited field gets its value, and every other field keeps its value except the ones the handler derives |
| VpnParameters.RouterIpFollowsNetwork | src/VPNParameters.js:89-93 | setting an internal network ending in ".0" also sets the router address, otherwise leaves it |
| VpnParameters.CommonNameSticks | src/VPNParameters.js:95-100 | once the common name is typed, a later public address no longer overwrites it |
| VpnParameters.CommonNameFollowsAddress | src/VPNParameters.js:95-97 | while the common name was never typed, it follows the public address |
| VpnParameters.CommonNameFlagKept | src/VPNParameters.js:98-100 | once set, the "common name has been set" flag stays set through any other edit |
| VpnParameters.HandleNumericChange | src/VPNParameters.js:109-112 | a numeric edit stores `Number` of the text in the field |
| AddressCheck.StartCheck | src/VPNParameters.js:116-122 | a blank address shows "required" without probing; any other address probes and shows "being checked" |
| AddressCheck.OnProbeResult | src/VPNParameters.js:123-136 | a live host shows "reachable"; a dead host that is still the current address shows "not reachable" |
| AddressCheck.StaleAnswerOnlyClears | src/VPNParameters.js:130-134 | a dead answer for an address no longer current can only clear a "being checked" text and leaves any other text |
| AddressCheck.OnProbeResultIdempotent | src/VPNParameters.js:123-136 | applying the same answer twice is the same as once |
| AddressCheck.AnsweredCheckSettles | src/VPNParameters.js:116-136 | an answer to the current address always replaces "being checked" with "reachable" or "not reachable" |
| Options.NameCountHolders | src/CertificateOptions.js:61 | `countBy` files each option under its username (or "undefined") and counts the options holding each name |
| Options.DuplicateIffShared | src/CertificateOptions.js:20 | a card shows "Duplicate username" exactly when another card has the same username key |
| Options.DuplicateSymmetric | src/CertificateOptions.js:20 | two cards sharing a username are both flagged |
| Options.UnnamedCardsCollide | src/CertificateOptions.js:20 | two cards without a username collide under "undefined" |
| Options.EditField | src/CertificateOptions.js:16-19 | an edit sets one field and keeps all others |
| Options.ReplaceOption | src/CertificateOptions.js:63-67 | the list keeps its length, the edited card is replaced, all other cards are kept |
| Options.EditOptionChangesOneField | src/ClientOptions.js:64-68 | editing a card changes one field of one card and nothing else |
| Options.FreshNameClearsFlag | src/ClientOptions.js:21 | renaming a card to a name no other card has clears its duplicate flag |
| Options.Header | src/CertificateOptions.js:24 | the server card is titled "Server Options" |
| Options.DefaultHeaderIsClientHeader | src/ClientOptions.js:25 | without a mode, or in client mode, the shared card titles itself as the client card does: "Client" and a number |
| Options.FieldText | src/CertificateOptions.js:33 | a field never typed shows as empty text |
| Options.ShownFields | src/CertificateOptions.js:40-49 | the username field is always shown, the password field exactly when not certificate-only |
| Stepper.InitialParameters | src/StepperApp.js:24-45 | the initial parameters have 3 users in development and 1 otherwise, port 1194, DD-WRT mode, and regenerate the CA unless developing with an existing CA |
| Stepper.Initial | src/StepperApp.js:23-77 | the wizard starts on page 0, not finished, idle, with as many client cards as users |
| Stepper.InitialListIsResized | src/StepperApp.js:47 | the initial client list is the default list for the initial user count |
| Stepper.ResizeClients | src/StepperApp.js:101-113 | resizing gives exactly n cards, keeps the existing ones below n, and fills the rest with `client<i+1>` defaults |
| Stepper.ParametersChanged | src/StepperApp.js:94-117 | new parameters are stored, the page is kept, and cards still match the user count |
| Stepper.SameCountKeepsClients | src/StepperApp.js:101 | an edit that keeps the user count keeps the cards as they are |
| Stepper.NewCountResizes | src/StepperApp.js:101-113 | an edit that changes the count resizes the cards to it |
| Stepper.ResizedToOwnLength | src/StepperApp.js:102 | resizing to the current length changes nothing |
| Stepper.ResizedIdempotent | src/StepperApp.js:101-113 | resizing twice to the same count is resizing once |
| Stepper.ShrinkThenGrow | src/StepperApp.js:101-113 | shrinking and growing again keeps the surviving cards and gives fresh defaults, not the old cards, above the cut |
| Stepper.DefaultNamesDistinct | src/StepperApp.js:105-108 | default card names never collide |
| Stepper.DefaultListUnflagged | src/StepperApp.js:105-108 | a freshly filled list shows no duplicate-username flag |
| Stepper.EditKeepsCount | src/StepperApp.js:158 | editing a card keeps the card count matching the user count |
| Stepper.HandleNext | src/StepperApp.js:79-85 | Next moves one page on and finishes exactly from the last page, changing nothing else |
| Stepper.HandlePrev | src/StepperApp.js:87-92 | Back moves one page back, and does nothing on the first page |
| Stepper.NextThenBack | src/StepperApp.js:79-92 | Next then Back from the first two pages returns to the same state |
| Stepper.Reset | src/StepperApp.js:200-205 | the rerun link returns to page 0, unfinished, keeping the entered data |
| Stepper.Shown | src/StepperApp.js:198-212 | the rerun link is shown exactly when finished |
| Stepper.ApplyInRange | src/StepperApp.js:186-224 | every enabled click (step buttons, Back, Next, rerun) keeps the page index in range |
| Stepper.NeverLost | src/StepperApp.js:175-182 | from the initial state, no sequence of clicks reaches the "long way from home" page |
| Stepper.InitialInRange | src/StepperApp.js:71-72 | the initial state is in range |
| Stepper.NextLabel | src/StepperApp.js:221 | the button reads "Finish" exactly on the last page |
| Stepper.FinishLabelFinishes | src/StepperApp.js:221-223 | clicking the button finishes the wizard exactly when it reads "Finish" |
| SshUtils.KeyboardAnswer | src/ssh-utils.js:24-28 | the password is sent exactly when there is a first prompt that mentions "password" in any case |
| SshUtils.PasswordPromptAnswered | src/ssh-utils.js:25-27 | "Password:" and "PASSWORD" prompts are answered with the password |
| SshUtils.PutCertificateTrace | src/ssh-utils.js:33-60 | a successful upload makes the directory, sends the CA certificate, then the CA key only in router mode, then the server certificate, server key and DH file |
| SshUtils.UploadOrder | src/ssh-utils.js:33-60 | the files arrive at `ca.crt`, `ca.key` (router mode only), `server.crt`, `server.key`, `dh.pem` in the directory, in that order |
| SshUtils.KeyOnlyForRouter | src/ssh-utils.js:40 | outside router mode, the CA key is never written or sent |
| SshUtils.TempKeyReleased | src/ssh-utils.js:43-49 | in router mode, once the temporary key file exists it is released even when writing or sending it fails |
| SshUtils.AsWrittenSwallowsFailure | src/ssh-utils.js:121-128 | with the default flag, a failed upload of the command file is reported as success and the temporary file is never released (Finding 1) |
| SshUtils.RunCommandsReportsFailure | src/ssh-utils.js:121-122 | corrected: a failure of the script reaches the caller with the "Error running command:" prefix |
| SshUtils.RunCommandsSucceeds | src/ssh-utils.js:104-120 | corrected: a run whose steps all succeed reports success |
| SshUtils.RunCommandsCleansUp | src/ssh-utils.js:123-128 | corrected: with deletion on, the remote file is removed exactly when it was sent, the local file exactly when it was written, and the temporary file released exactly when it was created |
| SshUtils.CommandsLines | src/ssh-utils.js:159-170 | the script is the template-source line, the server commands (the first indented), the openvpn reload, and blank framing lines |
| SshUtils.FireWallCommandsLines | src/ssh-utils.js:149-155 | the firewall script has two more lines than the rendered rules, every one prefixed with the vyatta wrapper; the first is `begin` and the last `end` |
| SshUtils.FireWallCommandsRoundTrip | src/ssh-utils.js:149-155 | removing the prefix from the middle lines gives back the rendered rules |
| SshUtils.Connected | src/ssh-utils.js:183-203 | a session connects first (on port 22) and always ends with closing the connection |
| SshUtils.AutoConfig | src/ssh-utils.js:172-204 | auto-configuration connects first and always closes last |
| SshUtils.AutoConfigOutcome | src/ssh-utils.js:186-193 | once connected, auto-configuration succeeds exactly when the certificate upload does, since both `runCommands` calls use the default flag (Finding 1); it then runs both script bodies in order and closes |
| SshUtils.AutoConfigIgnoresScriptFailure | src/ssh-utils.js:190-193 | a failing server script still leaves the configuration reported as a success, where the corrected `RunCommands` reports the failure |
| SshUtils.AutoConfigConnectFailure | src/ssh-utils.js:195-197 | a failed connection is reported as "failed to open ssh connection: " and its message, and nothing else is attempted before closing |
| SshUtils.AutoConfigLaterFailure | src/ssh-utils.js:198-199 | after a connection, a failed upload is reported with its own message |
| SshUtils.AutoConfigIgnoresPort | src/ssh-utils.js:184 | the outcome does not depend on the SSH port entered |
| SshUtils.ReadFileContent | src/ssh-utils.js:206-233 | reading a file always closes the connection last |
| SshUtils.ReadFileContentResult | src/ssh-utils.js:218-223 | the content is stdout when stderr is empty; otherwise the error is stderr with "cat: " removed |
| SshUtils.FileExists | src/ssh-utils.js:235-256 | runs one `ls`, fails exactly when it throws, and reports existence exactly when stderr is empty |
| SshUtils.ExecuteCommand | src/ssh-utils.js:258-265 | runs one command; returns stdout when stderr is empty and null otherwise, and hands stderr to the callback exactly when there is both |
| SshUtils.ExecuteWithReturnCode | src/ssh-utils.js:267-272 | runs one command and returns its exit code |
| Preflight.PingStep | src/ssh-utils.js:290-298 | the ping step fails exactly when the host is not alive |
| Preflight.ConnectStep | src/ssh-utils.js:300-304 | the connection uses the port as the form holds it and fails with the connection's error; the status line names a typed port exactly as typed, and " done" follows it iff the connection succeeds |
| SshUtils.PortString | src/ssh-utils.js:301 | `${sshPort}` gives a typed port text unchanged and a non-negative number as its canonical decimal numeral |
| SshUtils.CanonicalPortPrintsAsNumber | src/ConfiguratorOutput.js:325-326 | a port typed as a canonical numeral prints exactly as the number it denotes |
| SshUtils.LeadingZeroPortPrintedAsTyped | src/ConfiguratorOutput.js:325-326 | a port typed as "022" is printed as "022", while the initial number 22 is printed as "22" |
| Preflight.FirmwareStep | src/ssh-utils.js:306-313 | the firmware step fails exactly when the command throws or `Number` of its output is below 1.8 |
| Preflight.VersionNumber | src/ssh-utils.js:311 | a version text of digits, a dot and digits is read as that decimal number |
| Preflight.ShortVersionGate | src/ssh-utils.js:311 | a version `d.d` is too old exactly when it is below 1.8 |
| Preflight.FirmwareTenIsTooOld | src/ssh-utils.js:311 | "1.10" reads as 1.1 and is refused as too old |
| Preflight.FirmwareNonNumbers | src/ssh-utils.js:311 | a null output (`Number(null)` is 0) is refused, while a text starting with a letter reads as NaN and passes |
| Preflight.CaKeyStep | src/ssh-utils.js:315-323 | without reuse of the router's CA key nothing is checked; with it, the step fails exactly when the `ls` of the key file throws or writes to stderr |
| Preflight.NoTunnelIsInformational | src/ssh-utils.js:329-330 | exit code 1 from the interface query only reports that no tunnel is configured |
| Preflight.PushRouteIsFatal | src/ssh-utils.js:331-337 | when a tunnel exists, the check fails exactly when the push-route query exits with 1 |
| Preflight.RuleNumber | src/ssh-utils.js:348-350 | the rule number is the digit run after the first "set port-forward rule " followed by " original-port", and there is none exactly when no such text occurs |
| Preflight.LineAfter | src/ssh-utils.js:360-370 | a `(.*)` capture exists exactly when the key occurs and holds no line terminator |
| Preflight.NoRuleIsInformational | src/ssh-utils.js:344-345 | exit code 1 from the port-forward query only reports that there is no rule |
| Preflight.FoundRuleMustMatch | src/ssh-utils.js:347-379 | a found rule passes only if its forward target is the public address and the VPN port |
| Preflight.MatchingRulePasses | src/ssh-utils.js:372-381 | a found rule whose forward target is the public address and VPN port passes |
| Preflight.RewriteError | src/ssh-utils.js:388-395 | a refused connection and failed authentication are rewritten into explanations; any other message passes through |
| Preflight.RewriteChangesOnlyTheTwo | src/ssh-utils.js:388-395 | a message is kept exactly when it is neither of the two rewritten kinds |
| Preflight.CheckSshConfig | src/ssh-utils.js:280-399 | the check always ends by closing the connection |
| Preflight.RefusedConnectionExplained | src/ssh-utils.js:389-391 | a refused connection yields the message naming the host and port |
| Preflight.AuthFailureExplained | src/ssh-utils.js:392-394 | an authentication failure yields the user-name-and-password message |
| Preflight.UnreachableFailsFirst | src/ssh-utils.js:295-298 | an unreachable host fails the check before any connection, reporting the host |
| Preflight.ReachableConnectsFirst | src/ssh-utils.js:300-302 | for a reachable host, connecting is the first effect |
| Preflight.PassedCheckPassedGates | src/ssh-utils.js:289-386 | a check that passes passed every gate: ping, connection, firmware, CA key, tunnel and port forward |
| Configurator.UpdateState | src/ConfiguratorOutput.js:68 | a status update marks the page busy with the text and keeps the rest of the captured record |
| Configurator.BusyWhileRunning | src/ConfiguratorOutput.js:379 | after any status update the run button is disabled |
| Configurator.RunCaption | src/ConfiguratorOutput.js:376 | the button shows the status text, or "Click me to run configurator" when there is none |
| Configurator.SshConfigsOf | src/ConfiguratorOutput.js:187 | auto-configuration is handed the record's SSH server, user, port, CA key PEM and key-storage option |
| Configurator.FormValue | src/ConfiguratorOutput.js:73 | an option is read from the parameters exactly when present |
| Configurator.ReuseExistingCa | src/ConfiguratorOutput.js:87-105 | reuse succeeds exactly when both CA files exist, and returns their contents as the PEMs |
| Configurator.ObtainCa | src/ConfiguratorOutput.js:70-105 | reuse writes nothing and succeeds exactly when reuse finds the CA; a new CA succeeds exactly when building succeeds, and then writes the certificate and key PEMs to the CA files |
| Configurator.CaMessageIffReuse | src/ConfiguratorOutput.js:198 | the first status is "Reusing existing CA" exactly when reusing |
| Configurator.KeysDir | src/ConfiguratorOutput.js:132 | the keys directory is the entered one when truthy, the executable's directory otherwise |
| Configurator.ServerValidityStart | src/ConfiguratorOutput.js:127-130 | server certificates start now, or the day before in development |
| Configurator.DevServerCertsBackdated | src/ConfiguratorOutput.js:127-146 | in development, server certificates are requested with a start one day before now |
| Configurator.ServerCertOptions | src/ConfiguratorOutput.js:136-146 | a server certificate has the username as its only subject attribute, the entered password if any, and no end date |
| Configurator.OvpnNamesItsUser | src/ConfiguratorOutput.js:149-163 | the profile's lines name the public address and port and point at the user's own certificate and key |
| Configurator.ServerLeaves | src/ConfiguratorOutput.js:133-146 | one certificate request per server option, in order |
| Configurator.ServerCerts | src/ConfiguratorOutput.js:133-179 | without error, there is one status per server, "Generating certificates for server i+1" in order, and three files per server |
| Configurator.ServerFilesAt | src/ConfiguratorOutput.js:165-177 | without error, server j's three writes are its certificate, key and profile in its own directory |
| Configurator.ServerPart | src/ConfiguratorOutput.js:122-181 | no server options means no work; otherwise a successful part has one status and three files per server |
| Configurator.ServerPartFiles | src/ConfiguratorOutput.js:165-177 | writes 3j to 3j+2 of the server part are server j's certificate, key and profile |
| Configurator.DhStep | src/ConfiguratorOutput.js:107-120 | development uses the static PEM and writes nothing; otherwise the PEM exists exactly when the prime search succeeds, it is the PEM `generateDHParams` produces as written, and it is written unchanged to the DH file |
| Configurator.Assemble | src/ConfiguratorOutput.js:195-213 | the first status names the CA step; the run has material exactly when it has no error, exactly when the CA, servers, clients and DH all succeeded |
| Configurator.AssembledInOrder | src/ConfiguratorOutput.js:195-213 | a successful run's statuses are the CA message, "Generating server certificates", the server step's, "Generating client certificates", the client step's and "Generating dh pem"; its writes are the CA's, the servers' and the DH file's, and its material is the CA and the DH PEM |
| Configurator.AssembledStatuses | src/ConfiguratorOutput.js:199-209 | when the server step posted one status per server, a successful run's statuses are the CA message, the server heading, "Generating certificates for server i+1" for each server in turn, the client heading, the client statuses and "Generating dh pem" |
| Configurator.AssembledCaFirst | src/ConfiguratorOutput.js:199-201 | the CA's writes come first in a successful run |
| Configurator.AssembledCaFailure | src/ConfiguratorOutput.js:201 | a failed CA step stops the run after its first status |
| Configurator.AssembledServerWrites | src/ConfiguratorOutput.js:203-204 | the server writes follow the CA writes unchanged |
| Configurator.StatusOrder | src/ConfiguratorOutput.js:195-213 | a successful run's statuses are the CA message, the server heading, one status per server option in order, the client heading, the client statuses and "Generating dh pem" |
| Configurator.NewCaIsWritten | src/ConfiguratorOutput.js:76-77 | with a new CA, the run's first writes are the CA certificate and key PEMs |
| Configurator.ReusedCaIsRead | src/ConfiguratorOutput.js:87-100 | with reuse, the material's PEMs are the CA files' contents |
| Configurator.UnreadableCaStopsRun | src/ConfiguratorOutput.js:101-104 | reuse without readable CA files ends the run after "Reusing existing CA", with nothing written |
| Configurator.CertificatePartInOrder | src/ConfiguratorOutput.js:195-210 | a successful run writes the CA files, then the server files, then the DH file, and its material holds the CA and the DH PEM |
| Configurator.AutoConfigUsesCapturedRecord | src/ConfiguratorOutput.js:184-193 | auto-configuration uses the record captured before the run and connects to its server and user |
| Configurator.Conclude | src/ConfiguratorOutput.js:195-242 | the SSH status is first cleared; a final record exists exactly when the run produced its material; the writes are those of the run |
| Configurator.ConcludedSsh | src/ConfiguratorOutput.js:215-218 | auto-configuration runs only in SSH mode and only after a successful run, and reports done or failed with the message |
| Configurator.FinishedRunRecord | src/ConfiguratorOutput.js:221-241 | a finished run leaves the page idle at stage 2 with empty status text, shows the run's CA, DH and router texts, keeps the SSH fields, and re-enables the button unless errors forbid it |
| Configurator.FailedRunStaysBusy | src/ConfiguratorOutput.js:201 | a run that stopped early has no final record, contacts no router, and leaves the page busy with the last status and the old PEMs |

## Left out

- The user interface: rendering, tooltips, the snackbar, clipboard copy, the
  directory picker and its writability check, and the theme, index and tab files.
- The Electron bootstrap and `environment.js`: the values it supplies
  (development flag, CA existence, paths, addresses) are parameters.
- The crypto library's internals: RSA key generation, signing, PEM parsing and
  writing, and prime search are oracles. Only the DER and PEM framing of the
  DH parameters is modelled, because the program builds that itself.
- `Der.WrittenInteger`: the library's rule for INTEGER contents in its DER
  writer is modelled from its documented behaviour; the library's source is
  not part of this model.
- The debounce of the address checks: each check is modelled as one call.
- Concurrency between the asynchronous steps and the React state updates:
  each run is sequential.
- The commands the pre-flight check runs come from builders that
  `vpn-utils.js` does not define (`getFirmwareVersionCommand`,
  `getOpenVPNInterfaceCommand` and the port-forward builders). They are the
  `CheckCommands` parameter.
- The same holds for `generateClientConfigs` (the client-certificate step is
  a parameter), `generateFireWallConfig` (the firewall text is a parameter),
  `generateFireWallConfigForEdgeRouter` (a rendered text parameter),
  `errorTexts` (a boolean), and the `VPN_OPTION_CA_*` constants (a flag
  saying whether the local CA is reused).
- `serverOptions` is never set by the wizard. An undefined list is treated
  as an empty one.
- `vpnPort` is a whole number in the renderers, and `numberOfUsers` is assumed
  to be a whole number of users.
- The effects in a trace fail or succeed as one deterministic oracle
  (`World.fails`) says. Closing a connection never throws, and local file
  writes on the configurator page are assumed to succeed.
- `Js.ToNumber`: the decimal value is exact; the rounding to a double is not
  modelled.
- The two clock reads of a certificate build are independent parameters:
  that the second is no earlier than the first is not assumed, and nothing
  proved relies on it.
- `Strings.ToLowerAscii`: lower-casing covers ASCII letters only, not the
  rest of Unicode.
- `Configurator.FailedRunStaysBusy`: the status text shown when reusing the
  CA fails is this model's own wording for the missing value, since the
  program throws a `TypeError` whose text the engine chooses.
- `VpnParameters.HandleChange`: a non-text internal network value is
  modelled as a refused edit, since the program would throw on `endsWith`.
- `Configurator.KeysDir`: a truthy non-text `userKeysDir` is not modelled as
  text.
- `Preflight.CheckSshConfig`: the value `checkSSHConfig` returns (the
  connect call's undefined result) is not modelled.
- `Configurator.StatusOrder`: the properties of `generateConfigurations` are
  proved at two levels. Some hold of the certificate part (`BuildAll`); the
  others hold of the abstract steps it combines (`Assemble`, `Conclude`). No
  lemma states them of `GenerateConfigurations` in one piece.

## Findings

| source | as written | input that shows it | evidently intended | confidence | as-written member | corrected member |
|---|---|---|---|---|---|---|
| src/ssh-utils.js:121-128 | the `finally` block returns when `deleteTempFiles` is set, which is the default; a `return` in `finally` discards the thrown error and skips the cleanup | a command-file upload that throws during `runCommands(commands)` | the error reaches the caller ("Error running command: …"), and the temporary files are removed when deletion is on | not executed | SshUtils.AsWrittenSwallowsFailure | SshUtils.RunCommandsReportsFailure |
| src/VPNParameters.js:39 | the address pattern repeats `(^\|\.)octet` four times anchored only at the end, and is searched rather than matched whole, so it matches the last four octets of a longer text | "10.0.0.0.1" passes as an address | exactly four dot-separated octets | not executed | Validation.AsWrittenAcceptsFiveOctets | Validation.IsIpAddressIffDottedQuad |
| src/certificate-utils.js:252-256 | the prime's hex bytes are used unpadded as INTEGER contents, and the generator is encoded as four bytes | any 2048-bit prime: its first byte is at least 0x80, so DER reads the prime as negative; the generator's four bytes lose one zero in the DER writer and remain the non-minimal `00 00 02` | a positive prime with a leading zero byte and a one-byte generator | not executed | DhParams.AsWrittenPrimeIsNegative | DhParams.GenerateDhParams |
