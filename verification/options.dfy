/** The per-user certificate option cards: a list of options, each a small
    record of text fields keyed by name (`username`, `password`), edited one
    field of one card at a time. The server card and the client cards share
    the same logic; only the card title differs. */
module Options {
  import opened Wrappers
  import opened Strings

  const UsernameField := "username"
  const PasswordField := "password"
  const DuplicateText := "Duplicate username"

  /** One card's fields; a field never typed into is absent. */
  type CertOption = map<string, string>

  /** The key `_.countBy` files an option under: its username converted to
      text, so every option without a username is filed under "undefined". */
  function NameKey(o: CertOption): string {
    if UsernameField in o then o[UsernameField] else "undefined"
  }

  /** How many options are filed under `key`: the entry `nameCounts[key]`. */
  function NameCount(options: seq<CertOption>, key: string): (n: nat)
    ensures n <= |options|
    decreases |options|
  {
    if |options| == 0 then 0
    else (if NameKey(options[0]) == key then 1 else 0) + NameCount(options[1..], key)
  }

  /** The indices whose options are filed under `key`, counted directly. */
  function Holders(options: seq<CertOption>, key: string): set<nat> {
    set j | 0 <= j < |options| && NameKey(options[j]) == key
  }

  /** The count is the number of holders. */
  lemma {:induction false} NameCountHolders(options: seq<CertOption>, key: string)
    ensures NameCount(options, key) == |Holders(options, key)|
    decreases |options|
  {
    if |options| > 0 {
      var rest := options[1..];
      NameCountHolders(rest, key);
      var h := Holders(options, key);
      var t := Holders(rest, key);
      var shifted := Shift(t);
      forall j | 1 <= j < |options| && NameKey(options[j]) == key
        ensures j in shifted
      {
        assert options[j] == rest[j - 1];
        assert j - 1 in t;
      }
      assert forall j :: j in shifted ==> 1 <= j < |options| && NameKey(options[j]) == key;
      ShiftSize(t);
      if NameKey(options[0]) == key {
        assert h == {0} + shifted;
      } else {
        assert h == shifted;
      }
    }
  }

  /** Every index one further on. */
  function Shift(t: set<nat>): set<nat> {
    set j | j in t :: j + 1
  }

  /** Shifting a set of indices by one keeps its size. */
  lemma {:induction false} ShiftSize(t: set<nat>)
    ensures |Shift(t)| == |t|
    decreases |t|
  {
    if t != {} {
      var x :| x in t;
      ShiftSize(t - {x});
      var s := Shift(t);
      var s' := Shift(t - {x});
      forall y | y in s
        ensures y in s' + {x + 1}
      {
        var j :| j in t && y == j + 1;
        if j != x {
          assert j in t - {x};
        }
      }
      forall y | y in s'
        ensures y in s
      {
        var j :| j in t - {x} && y == j + 1;
        assert j in t;
      }
      assert s == s' + {x + 1};
      assert x + 1 !in s';
      assert |s| == |s'| + 1;
      assert t == (t - {x}) + {x};
      assert |t| == |t - {x}| + 1;
    } else {
      assert Shift(t) == {};
    }
  }

  /** The error text under card `idx`'s username. */
  function ErrorText(options: seq<CertOption>, idx: nat): string
    requires idx < |options|
  {
    if NameCount(options, NameKey(options[idx])) > 1 then DuplicateText else ""
  }

  /** A card is flagged exactly when another card is filed under the same
      username key. */
  lemma DuplicateIffShared(options: seq<CertOption>, idx: nat)
    requires idx < |options|
    ensures ErrorText(options, idx) == DuplicateText
      <==> exists j :: 0 <= j < |options| && j != idx && NameKey(options[j]) == NameKey(options[idx])
  {
    var key := NameKey(options[idx]);
    var h := Holders(options, key);
    NameCountHolders(options, key);
    assert idx in h;
    if exists j :: 0 <= j < |options| && j != idx && NameKey(options[j]) == key {
      var j :| 0 <= j < |options| && j != idx && NameKey(options[j]) == key;
      assert {idx, j} <= h;
      assert |{idx, j}| == 2;
      SubsetSize({idx, j}, h);
    } else {
      assert h == {idx};
    }
  }

  lemma SubsetSize(a: set<nat>, b: set<nat>)
    requires a <= b
    ensures |a| <= |b|
  {
    assert b == a + (b - a);
  }

  /** Duplicates are flagged in pairs: a card flagged because of another one
      makes that one flagged too. */
  lemma DuplicateSymmetric(options: seq<CertOption>, i: nat, j: nat)
    requires i < |options| && j < |options| && i != j
    requires NameKey(options[i]) == NameKey(options[j])
    ensures ErrorText(options, i) == DuplicateText && ErrorText(options, j) == DuplicateText
  {
    DuplicateIffShared(options, i);
    DuplicateIffShared(options, j);
  }

  /** Two cards that were never given a username are both flagged. */
  lemma UnnamedCardsCollide(options: seq<CertOption>, i: nat, j: nat)
    requires i < |options| && j < |options| && i != j
    requires UsernameField !in options[i] && UsernameField !in options[j]
    ensures ErrorText(options, i) == DuplicateText
  {
    DuplicateSymmetric(options, i, j);
  }

  /** `handleChange(field, value)` of one card: that field set, the others kept. */
  function EditField(o: CertOption, field: string, value: string): (r: CertOption)
    ensures field in r && r[field] == value
    ensures forall k :: k != field ==> (k in r <==> k in o)
    ensures forall k :: k != field && k in o ==> r[k] == o[k]
  {
    o[field := value]
  }

  /** `handleCertificateOptionChange(idx, option)`: a copy of the list with
      one entry replaced. */
  function ReplaceOption(options: seq<CertOption>, idx: nat, option: CertOption): (r: seq<CertOption>)
    requires idx < |options|
    ensures |r| == |options| && r[idx] == option
    ensures forall j :: 0 <= j < |r| && j != idx ==> r[j] == options[j]
  {
    options[idx := option]
  }

  /** An edit typed into card `idx`: the list handed to the page's listener. */
  function EditOption(options: seq<CertOption>, idx: nat, field: string, value: string): (r: seq<CertOption>)
    requires idx < |options|
  {
    ReplaceOption(options, idx, EditField(options[idx], field, value))
  }

  /** An edit changes exactly one field of exactly one card. */
  lemma EditOptionChangesOneField(options: seq<CertOption>, idx: nat, field: string, value: string)
    requires idx < |options|
    ensures var r := EditOption(options, idx, field, value);
      |r| == |options|
      && (forall j :: 0 <= j < |r| && j != idx ==> r[j] == options[j])
      && field in r[idx] && r[idx][field] == value
      && (forall k :: k != field ==> (k in r[idx] <==> k in options[idx]))
      && (forall k :: k != field && k in options[idx] ==> r[idx][k] == options[idx][k])
  {
  }

  /** Renaming a card to a name no other card uses clears its flag. */
  lemma FreshNameClearsFlag(options: seq<CertOption>, idx: nat, name: string)
    requires idx < |options|
    requires forall j :: 0 <= j < |options| && j != idx ==> NameKey(options[j]) != name
    ensures ErrorText(EditOption(options, idx, UsernameField, name), idx) == ""
  {
    var r := EditOption(options, idx, UsernameField, name);
    assert NameKey(r[idx]) == name;
    DuplicateIffShared(r, idx);
  }

  /** The text shown in a field: an absent or empty field shows as empty. */
  function FieldText(o: CertOption, field: string): (t: string)
    ensures field in o ==> t == o[field]
    ensures field !in o ==> t == ""
  {
    if field in o && o[field] != "" then o[field] else ""
  }

  /** The card title. `mode` is `None` when the caller leaves it out, and
      then reads as "Client". */
  function Header(mode: Option<string>, idx: nat): (h: string)
    ensures mode == Some("Server") ==> h == "Server Options"
  {
    var m := mode.GetOr("Client");
    if m == "Server" then "Server Options" else m + " " + NatToString(idx + 1) + " Options"
  }

  /** The client list's own card title. */
  function ClientHeader(idx: nat): string {
    "Client " + NatToString(idx + 1) + " Options"
  }

  /** Without a mode the shared card titles itself as the client card does,
      and a client card's title names its one-based position. */
  lemma DefaultHeaderIsClientHeader(idx: nat)
    ensures Header(None, idx) == ClientHeader(idx)
    ensures Header(Some("Client"), idx) == ClientHeader(idx)
    ensures ClientHeader(idx)[..7] == "Client " && AllDigits(ClientHeader(idx)[7..|ClientHeader(idx)| - 8])
      && DigitsValue(ClientHeader(idx)[7..|ClientHeader(idx)| - 8]) == idx + 1
  {
    var n := NatToString(idx + 1);
    var h := ClientHeader(idx);
    assert h == "Client " + n + " Options";
    assert h[7..|h| - 8] == n;
    NatToStringCanonical(idx + 1);
  }

  /** The fields a card shows: the password only without certificate-only
      authentication. */
  function ShownFields(certificateOnlyAuth: bool): (fields: seq<string>)
    ensures UsernameField in fields
    ensures PasswordField in fields <==> !certificateOnlyAuth
  {
    if certificateOnlyAuth then [UsernameField] else [UsernameField, PasswordField]
  }
}
