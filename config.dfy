/**
 * The settings the modelled core reads: the CORS origins and the PII
 * entity names, both given as comma-separated strings, the mask
 * character and the two feature flags.
 */
module Config {
  import opened PyText

  datatype Settings = Settings(
    allowedOrigins: string,
    piiEntities: string,
    piiRedactionChar: string,
    enablePiiRedaction: bool,
    enableAuditLog: bool)

  /** The values used when the environment sets none. */
  const Defaults := Settings(
    "http://localhost:3000",
    "PERSON,EMAIL,PHONE_NUMBER,CREDIT_CARD,SSN,IP_ADDRESS",
    "*",
    true,
    true)

  /** `[x.strip() for x in s.split(",")]`: the comma-separated items of `s`
      without surrounding whitespace; an empty item is kept. */
  function CommaItems(s: string): (r: seq<string>)
    ensures |r| == Count(s, ',') + 1
    ensures |r| == |Split(s, ',')| && forall i :: 0 <= i < |r| ==> r[i] == Strip(Split(s, ',')[i])
    ensures forall i :: 0 <= i < |r| ==> ',' !in r[i]
    ensures forall i :: 0 <= i < |r| ==> r[i] == [] || (!IsSpace(r[i][0]) && !IsSpace(r[i][|r[i]| - 1]))
  {
    var parts := Split(s, ',');
    var r := seq(|parts|, i requires 0 <= i < |parts| => Strip(parts[i]));
    forall i, c | 0 <= i < |r| && c in r[i]
      ensures c in parts[i]
    {
      var lo := LeadingSpace(parts[i]);
      assert r[i] == parts[i][lo..lo + |r[i]|];
    }
    r
  }

  /** Items without commas and surrounding whitespace, joined by commas,
      are read back unchanged. */
  lemma CommaItemsJoin(items: seq<string>)
    requires |items| >= 1
    requires forall i :: 0 <= i < |items| ==> ',' !in items[i]
    requires forall i :: 0 <= i < |items| ==> items[i] == [] || (!IsSpace(items[i][0]) && !IsSpace(items[i][|items[i]| - 1]))
    ensures CommaItems(Join(items, ',')) == items
  {
    SplitJoin(items, ',');
    forall i | 0 <= i < |items|
      ensures Strip(items[i]) == items[i]
    {
      StripUnchanged(items[i]);
    }
  }

  /** `Settings.allowed_origins_list` */
  function AllowedOriginsList(s: Settings): (r: seq<string>)
    ensures r == CommaItems(s.allowedOrigins)
    ensures |r| == Count(s.allowedOrigins, ',') + 1
  {
    CommaItems(s.allowedOrigins)
  }

  /** `Settings.pii_entities_list` */
  function PiiEntitiesList(s: Settings): (r: seq<string>)
    ensures r == CommaItems(s.piiEntities)
    ensures |r| == Count(s.piiEntities, ',') + 1
  {
    CommaItems(s.piiEntities)
  }

  /** By default the frontend on port 3000 is the only allowed origin. */
  lemma DefaultOrigins()
    ensures AllowedOriginsList(Defaults) == ["http://localhost:3000"]
  {
    var o := Defaults.allowedOrigins;
    assert o[0] == 'h' && o[|o| - 1] == '0';
    assert ',' !in o;
    CommaItemsJoin([o]);
  }

  /** The entity kinds looked for by default. */
  const DefaultPiiKinds := ["PERSON", "EMAIL", "PHONE_NUMBER", "CREDIT_CARD", "SSN", "IP_ADDRESS"]

  /** By default six entity kinds are looked for. */
  lemma DefaultPiiEntities()
    ensures PiiEntitiesList(Defaults) == DefaultPiiKinds
  {
    DefaultPiiJoin();
    DefaultPiiKindsPlain();
    CommaItemsJoin(DefaultPiiKinds);
  }

  lemma DefaultPiiJoin()
    ensures Join(DefaultPiiKinds, ',') == Defaults.piiEntities
  {
    var items := DefaultPiiKinds;
    assert Join(items[..2], ',') == "PERSON,EMAIL";
    assert items[..3][..2] == items[..2];
    assert Join(items[..3], ',') == "PERSON,EMAIL,PHONE_NUMBER";
    assert items[..4][..3] == items[..3];
    assert Join(items[..4], ',') == "PERSON,EMAIL,PHONE_NUMBER,CREDIT_CARD";
    assert items[..5][..4] == items[..4];
    assert Join(items[..5], ',') == "PERSON,EMAIL,PHONE_NUMBER,CREDIT_CARD,SSN";
    assert items[..5] == items[..|items| - 1];
  }

  lemma DefaultPiiKindsPlain()
    ensures forall i :: 0 <= i < |DefaultPiiKinds| ==> ',' !in DefaultPiiKinds[i]
    ensures forall i :: 0 <= i < |DefaultPiiKinds| ==>
              !IsSpace(DefaultPiiKinds[i][0]) && !IsSpace(DefaultPiiKinds[i][|DefaultPiiKinds[i]| - 1])
  {
  }
}
