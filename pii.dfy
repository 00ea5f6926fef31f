/**
 * The PII service: finding personal data in text, masking it, and masking
 * the string fields of a dict. The entity recogniser and the anonymiser
 * are library engines; here they are functions the service is given.
 */
module Pii {
  import opened PyValues
  import opened Config

  /** One finding of the recogniser: an entity kind, a span and a score. */
  datatype Finding = Finding(entityType: string, start: int, end: int, score: real)

  /** One entry of `detect_pii`'s list. */
  datatype Detection = Detection(entityType: string, start: int, end: int, score: real, text: string)

  /** Python's `s[a:b]` for a string: negative bounds count from the end,
      bounds are clamped to the string, and an empty range gives `""`. */
  function Slice(s: string, a: int, b: int): (r: string)
    ensures |r| <= |s|
    ensures 0 <= a <= b <= |s| ==> r == s[a..b]
    ensures 0 <= b <= a ==> r == ""
    ensures -|s| <= a <= b < 0 ==> r == s[|s| + a..|s| + b]
  {
    var lo := if a < 0 then Max(a + |s|, 0) else Min(a, |s|);
    var hi := if b < 0 then Max(b + |s|, 0) else Min(b, |s|);
    if lo < hi then s[lo..hi] else ""
  }

  function Max(x: int, y: int): int { if x < y then y else x }
  function Min(x: int, y: int): int { if x < y then x else y }

  /** `PIIRedactionService`: the settings it reads, the recogniser
      (`analyze(text, entities)`) and the masking anonymiser
      (`anonymize(text, findings, mask_char)`). */
  datatype PiiService = PiiService(
    settings: Settings,
    analyze: (string, seq<string>) -> seq<Finding>,
    anonymize: (string, seq<Finding>, string) -> string)
  {
    /** `detect_pii`: nothing when redaction is off or the text is empty;
        otherwise one entry per finding, carrying the covered text. */
    function DetectPii(text: string): (r: seq<Detection>)
      ensures !settings.enablePiiRedaction || text == [] ==> r == []
      ensures settings.enablePiiRedaction && text != [] ==>
                |r| == |analyze(text, PiiEntitiesList(settings))|
      ensures forall i :: 0 <= i < |r| ==>
                var f := analyze(text, PiiEntitiesList(settings))[i];
                && r[i] == Detection(f.entityType, f.start, f.end, f.score, r[i].text)
                && r[i].text == Slice(text, f.start, f.end)
                && |r[i].text| <= |text|
    {
      if !settings.enablePiiRedaction || text == [] then []
      else
        var fs := analyze(text, PiiEntitiesList(settings));
        seq(|fs|, i requires 0 <= i < |fs| =>
          Detection(fs[i].entityType, fs[i].start, fs[i].end, fs[i].score, Slice(text, fs[i].start, fs[i].end)))
    }

    /** `redact_pii`: the text unchanged when redaction is off or the text
        is empty; otherwise what the anonymiser makes of it, masking with
        the configured character. */
    function RedactPii(text: string): (r: string)
      ensures !settings.enablePiiRedaction || text == [] ==> r == text
    {
      if !settings.enablePiiRedaction || text == [] then text
      else anonymize(text, analyze(text, PiiEntitiesList(settings)), settings.piiRedactionChar)
    }

    /** One round of `redact_dict`'s loop: a present string field is
        replaced by its redaction. */
    function RedactField(d: Obj, field: string): (r: Obj)
    {
      if field in d.vals && d.vals[field].PyStr? then Set(d, field, PyStr(RedactPii(d.vals[field].s))) else d
    }

    /** The dict after the loop has visited `fields`: the same keys in the
        same order, and only listed string fields can differ, and they
        stay strings. */
    function RedactFields(d: Obj, fields: seq<string>): (r: Obj)
      ensures r.keys == d.keys
      ensures forall k :: k in r.vals <==> k in d.vals
      ensures forall k :: k in d.vals && (k !in fields || !d.vals[k].PyStr?) ==> r.vals[k] == d.vals[k]
      ensures forall k :: k in d.vals && d.vals[k].PyStr? ==> r.vals[k].PyStr?
    {
      if fields == [] then d
      else RedactField(RedactFields(d, fields[..|fields| - 1]), fields[|fields| - 1])
    }

    /** A string field listed once is redacted exactly once. */
    lemma {:induction false} RedactFieldsListedOnce(d: Obj, fields: seq<string>, k: string)
      requires Distinct(fields) && k in fields
      requires k in d.vals && d.vals[k].PyStr?
      ensures RedactFields(d, fields).vals[k] == PyStr(RedactPii(d.vals[k].s))
    {
      var init, f := fields[..|fields| - 1], fields[|fields| - 1];
      if f == k {
        assert k !in init;
      } else {
        assert k in init by {
          var i :| 0 <= i < |fields| && fields[i] == k;
          assert init[i] == k;
        }
        assert Distinct(init) by {
          assert forall i, j :: 0 <= i < j < |init| ==> init[i] == fields[i] && init[j] == fields[j];
        }
        RedactFieldsListedOnce(d, init, k);
      }
    }

    /** `redact_dict`: with redaction off the dict itself; otherwise a copy
        in which each field of `fieldsToCheck` (by default every field
        holding a string) that holds a string is redacted. */
    method RedactDict(data: Obj, fieldsToCheck: Option<seq<string>>) returns (r: Obj)
      ensures !settings.enablePiiRedaction ==> r == data
      ensures settings.enablePiiRedaction ==> r == RedactFields(data, FieldsToCheck(data, fieldsToCheck))
      ensures r.keys == data.keys && forall k :: k in r.vals <==> k in data.vals
      ensures forall k :: k in data.vals && !data.vals[k].PyStr? ==> r.vals[k] == data.vals[k]
      ensures fieldsToCheck.Some? ==>
                forall k :: k in data.vals && k !in fieldsToCheck.value ==> r.vals[k] == data.vals[k]
      ensures settings.enablePiiRedaction && fieldsToCheck.None? ==>
                forall k :: k in data.vals && data.vals[k].PyStr? ==> r.vals[k] == PyStr(RedactPii(data.vals[k].s))
    {
      if !settings.enablePiiRedaction {
        return data;
      }
      r := RedactEach(data, FieldsToCheck(data, fieldsToCheck));
      if fieldsToCheck.None? {
        RedactFieldsEveryString(data);
      }
    }

    /** The loop of `redact_dict` over the fields to check, on a copy of
        `data`: a present string field is replaced by its redaction. */
    method RedactEach(data: Obj, fields: seq<string>) returns (r: Obj)
      ensures r == RedactFields(data, fields)
    {
      r := data;
      var i := 0;
      while i < |fields|
        invariant 0 <= i <= |fields|
        invariant r == RedactFields(data, fields[..i])
      {
        assert fields[..i + 1][..i] == fields[..i];
        var field := fields[i];
        if field in r.vals && r.vals[field].PyStr? {
          r := Set(r, field, PyStr(RedactPii(r.vals[field].s)));
        }
        i := i + 1;
      }
      assert fields[..i] == fields;
    }

    /** Visiting every key that holds a string redacts each of them once. */
    lemma RedactFieldsEveryString(data: Obj)
      ensures var fields := FieldsToCheck(data, None);
              forall k :: k in data.vals && data.vals[k].PyStr? ==>
                RedactFields(data, fields).vals[k] == PyStr(RedactPii(data.vals[k].s))
    {
      var fields := FieldsToCheck(data, None);
      forall k | k in data.vals && data.vals[k].PyStr?
        ensures RedactFields(data, fields).vals[k] == PyStr(RedactPii(data.vals[k].s))
      {
        RedactFieldsListedOnce(data, fields, k);
      }
    }
  }

  predicate IsStr(v: Value) {
    v.PyStr?
  }

  /** The fields `redact_dict` visits: the given list, or the keys holding
      strings, in dict order. */
  function FieldsToCheck(data: Obj, fieldsToCheck: Option<seq<string>>): (r: seq<string>)
    ensures fieldsToCheck.Some? ==> r == fieldsToCheck.value
    ensures fieldsToCheck.None? ==> Distinct(r) && forall k :: k in r <==> k in data.vals && data.vals[k].PyStr?
  {
    if fieldsToCheck.Some? then fieldsToCheck.value
    else
      ObjKeysDistinct(data);
      KeysWhere(data.keys, data.vals, IsStr)
  }
}
