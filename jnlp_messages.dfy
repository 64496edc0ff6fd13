/** Localized messages of the JNLP runtime: `getMessage(key)`, which looks a
    key up in the resource bundle with a fallback chain through the
    "RNoResource" message, and `getMessage(key, args)`, which formats the
    looked-up pattern. `MessageFormat` is modelled for the one-argument
    patterns the runtime uses: every "{0}" is replaced by the argument. */
module JnlpMessages {
  import opened JavaLang

  /** The resource bundle: key to localized string. */
  type Resources = map<string, string>

  const NoResourceKey := "RNoResource"
  const MissingPrefix := "Missing resource: "

  /** `MessageFormat.format(pattern, arg)`, reduced to "{0}" substitution. */
  function Format(pattern: string, arg: string): string {
    if |pattern| < 3 then pattern
    else if pattern[..3] == "{0}" then arg + Format(pattern[3..], arg)
    else [pattern[0]] + Format(pattern[1..], arg)
  }

  /** A pattern without '{' is copied unchanged. */
  lemma {:induction false} FormatWithoutPlaceholder(pattern: string, arg: string)
    requires forall k :: 0 <= k < |pattern| ==> pattern[k] != '{'
    ensures Format(pattern, arg) == pattern
  {
    if |pattern| >= 3 {
      assert pattern[0] != '{';
      assert pattern[..3] != "{0}" by { assert "{0}"[0] == '{'; }
      FormatWithoutPlaceholder(pattern[1..], arg);
      assert pattern == [pattern[0]] + pattern[1..];
    }
  }

  /** A pattern that ends in "{0}" ends in the argument once formatted. */
  lemma {:induction false} FormatTrailingPlaceholder(text: string, arg: string)
    requires forall k :: 0 <= k < |text| ==> text[k] != '{'
    ensures Format(text + "{0}", arg) == text + arg
  {
    var p := text + "{0}";
    if text == [] {
      assert p == "{0}";
      assert Format(p, arg) == arg + Format([], arg);
    } else {
      assert p[0] == text[0];
      assert p[..3] != "{0}" by { assert p[..3][0] == text[0] != '{'; }
      assert p[1..] == text[1..] + "{0}";
      calc {
        Format(p, arg);
        [p[0]] + Format(p[1..], arg);
        { FormatTrailingPlaceholder(text[1..], arg); }
        [text[0]] + (text[1..] + arg);
        { assert text == [text[0]] + text[1..]; }
        text + arg;
      }
    }
  }

  /** `resources.getString(key)`, with the empty string read as null. */
  function Lookup(res: Resources, key: string): (r: Option<string>)
    requires key in res
    ensures r.None? <==> res[key] == []
    ensures r.Some? ==> r.value == res[key]
  {
    if |res[key]| == 0 then None else Some(res[key])
  }

  /** `getMessage(key, arg)` applied to the result of `getMessage(key)`:
      formatting a null pattern throws a NullPointerException. */
  function FormatMessage(pattern: Result<Option<string>>, arg: string): (r: Result<Option<string>>)
    ensures pattern.Ok? && pattern.value.Some? ==> r == Ok(Some(Format(pattern.value.value, arg)))
    ensures pattern.Ok? && pattern.value.None? ==> r == Thrown(NullPointerException)
    ensures pattern.Thrown? ==> r == pattern
  {
    match pattern
    case Thrown(e) => Thrown(e)
    case Ok(None) => Thrown(NullPointerException)
    case Ok(Some(p)) => Ok(Some(Format(p, arg)))
  }

  /** `getMessage(key)` exactly as written: a missing key is reported
      through `getMessage("RNoResource", key)`, whose own fallback names the
      key "RNoResource", and formatting an empty "RNoResource" throws. */
  function GetMessageAsWritten(res: Resources, key: string): (r: Result<Option<string>>)
    ensures r.Thrown? <==> key !in res && NoResourceKey in res && res[NoResourceKey] == []
    ensures r.Thrown? ==> r.exception == NullPointerException
    ensures r.Ok? && r.value.None? <==> key in res && res[key] == []
    decreases if key == NoResourceKey then 0 else 1
  {
    if key in res then Ok(Lookup(res, key))
    else if key != NoResourceKey then FormatMessage(GetMessageAsWritten(res, NoResourceKey), key)
    else Ok(Some(MissingPrefix + key))
  }

  /** As written, present keys read as the bundle says: empty means null. */
  lemma AsWrittenPresentKey(res: Resources, key: string)
    requires key in res
    ensures GetMessageAsWritten(res, key) == Ok(if res[key] == [] then None else Some(res[key]))
  {
  }

  /** As written, when "RNoResource" is missing too, the reported key is
      "RNoResource" and not the key that was asked for. */
  lemma AsWrittenLosesMissingKey(res: Resources, key: string)
    requires key !in res && NoResourceKey !in res && key != NoResourceKey
    ensures GetMessageAsWritten(res, key) == Ok(Some(MissingPrefix + NoResourceKey))
    ensures GetMessageAsWritten(res, key) != Ok(Some(MissingPrefix + key))
  {
    FormatWithoutPlaceholder(MissingPrefix + NoResourceKey, key);
    assert MissingPrefix + NoResourceKey != MissingPrefix + key by {
      assert (MissingPrefix + NoResourceKey)[|MissingPrefix|..] == NoResourceKey;
      assert (MissingPrefix + key)[|MissingPrefix|..] == key;
    }
  }

  /** As written, a missing key throws when "RNoResource" is present but empty. */
  lemma AsWrittenThrowsOnEmptyNoResource(key: string)
    requires key != NoResourceKey
    ensures GetMessageAsWritten(map[NoResourceKey := ""], key) == Thrown(NullPointerException)
  {
  }

  /** `getMessage(key)` as evidently intended and used by the rest of the
      model: a missing key is reported with the "RNoResource" pattern when
      that pattern has text, and as "Missing resource: " + key otherwise. */
  function GetMessage(res: Resources, key: string): (r: Option<string>)
    ensures key in res ==> r == Lookup(res, key)
    ensures key !in res && NoResourceKey in res && res[NoResourceKey] != [] ==>
              r == Some(Format(res[NoResourceKey], key))
    ensures key !in res && (NoResourceKey !in res || res[NoResourceKey] == []) ==>
              r == Some(MissingPrefix + key)
  {
    if key in res then Lookup(res, key)
    else if NoResourceKey in res && res[NoResourceKey] != [] then Some(Format(res[NoResourceKey], key))
    else Some(MissingPrefix + key)
  }

  /** The corrected and the as-written lookup agree whenever the key is
      present or the "RNoResource" pattern has text. */
  lemma {:induction false} CorrectedAgreesWithAsWritten(res: Resources, key: string)
    requires key in res || (NoResourceKey in res && res[NoResourceKey] != [])
    ensures GetMessageAsWritten(res, key) == Ok(GetMessage(res, key))
  {
    if key !in res {
      assert key != NoResourceKey;
      assert GetMessageAsWritten(res, NoResourceKey) == Ok(Some(res[NoResourceKey]));
    }
  }

  /** With the usual "Missing resource: {0}" pattern a missing key is named. */
  lemma MissingKeyIsNamed(res: Resources, key: string)
    requires key !in res && NoResourceKey in res && res[NoResourceKey] == MissingPrefix + "{0}"
    ensures GetMessage(res, key) == Some(MissingPrefix + key)
  {
    FormatTrailingPlaceholder(MissingPrefix, key);
  }

  /** `getMessage(key, arg)`: `MessageFormat.format(getMessage(key), arg)`
      over the lookup as written. A present key is formatted, or throws a
      NullPointerException when it reads as null; a missing key goes
      through the "RNoResource" pattern, which throws the same way when it
      is empty, and with no "RNoResource" at all the text names
      "RNoResource" itself. */
  function GetMessageWith(res: Resources, key: string, arg: string): (r: Result<Option<string>>)
    ensures key in res && res[key] != [] ==> r == Ok(Some(Format(res[key], arg)))
    ensures key in res && res[key] == [] ==> r == Thrown(NullPointerException)
    ensures key !in res && NoResourceKey in res && res[NoResourceKey] != [] ==>
              r == Ok(Some(Format(Format(res[NoResourceKey], key), arg)))
    ensures key !in res && NoResourceKey in res && res[NoResourceKey] == [] ==>
              r == Thrown(NullPointerException)
    ensures key !in res && NoResourceKey !in res ==> r == Ok(Some(MissingPrefix + NoResourceKey))
  {
    AsWrittenCases(res, key);
    NoResourceTextHasNoPlaceholder();
    FormatWithoutPlaceholder(MissingPrefix + NoResourceKey, arg);
    FormatMessage(GetMessageAsWritten(res, key), arg)
  }

  /** The lookup as written, case by case over the bundle. */
  lemma AsWrittenCases(res: Resources, key: string)
    ensures key in res ==> GetMessageAsWritten(res, key) == Ok(Lookup(res, key))
    ensures key !in res && NoResourceKey in res && res[NoResourceKey] != [] ==>
              GetMessageAsWritten(res, key) == Ok(Some(Format(res[NoResourceKey], key)))
    ensures key !in res && NoResourceKey in res && res[NoResourceKey] == [] ==>
              GetMessageAsWritten(res, key) == Thrown(NullPointerException)
    ensures key !in res && NoResourceKey !in res ==>
              GetMessageAsWritten(res, key) == Ok(Some(MissingPrefix + NoResourceKey))
  {
    if key !in res && NoResourceKey in res {
      assert key != NoResourceKey;
      assert GetMessageAsWritten(res, NoResourceKey) == Ok(Lookup(res, NoResourceKey));
    } else if key !in res && key != NoResourceKey {
      AsWrittenLosesMissingKey(res, key);
    }
  }

  /** The fallback text "Missing resource: RNoResource" holds no '{'. */
  lemma NoResourceTextHasNoPlaceholder()
    ensures forall k :: 0 <= k < |MissingPrefix + NoResourceKey| ==> (MissingPrefix + NoResourceKey)[k] != '{'
  {
  }
}
