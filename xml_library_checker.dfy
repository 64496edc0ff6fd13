/** eXist's `XmlLibraryChecker`: for each kind of XML service (parser,
    transformer, resolver) a list of acceptable implementations, each with a
    required version; the checker reports, into a caller's buffer, which
    implementation it found and whether its version is recent enough. The
    version each implementation reports by reflection is an input here. */
module XmlLibraryChecker {
  import opened JavaLang

  /** `ClassVersion`: a display name, the required version and the static
      method that reports the version, as "package.Class.method()". */
  datatype ClassVersion = ClassVersion(simpleName: string, requiredVersion: string, versionFunction: string)

  /** A candidate as the check sees it: its `ClassVersion` and what the
      reflective call of its version function returns (null when the class
      or the method is missing or the call fails). */
  datatype Candidate = Candidate(version: ClassVersion, reflected: Option<string>)

  const ValidParsers := [ClassVersion("Xerces", "Xerces-J 2.9.1", "org.apache.xerces.impl.Version.getVersion()")]
  const ValidTransformers := [
    ClassVersion("Saxon", "8.9.0", "net.sf.saxon.Version.getProductVersion()"),
    ClassVersion("Xalan", "Xalan Java 2.7.1", "org.apache.xalan.Version.getVersion()")]
  const ValidResolvers := [ClassVersion("Resolver", "XmlResolver 1.2", "org.apache.xml.resolver.Version.getVersion()")]

  /** The `toString()` of an object is "Class@hash"; `getClassName` keeps the
      text before the last '@', or all of it when there is none. */
  function GetClassName(classId: string): (r: string)
    ensures '@' !in classId ==> r == classId
    ensures '@' in classId ==> |r| < |classId| && r == classId[..|r|] && classId[|r|] == '@' && '@' !in classId[|r| + 1..]
  {
    var lastChar := LastIndexOf(classId, '@');
    if lastChar == -1 then classId else classId[..lastChar]
  }

  /** The split at the head of `getActualVersion`: the class name is the text
      before the last '.', the method name the text between the last '.' and
      the last '('. */
  function SplitVersionFunction(f: string): Result<(string, string)> {
    var dot := LastIndexOf(f, '.');
    var paren := LastIndexOf(f, '(');
    match Substring(f, 0, dot)
    case Thrown(e) => Thrown(e)
    case Ok(className) =>
      match Substring(f, dot + 1, paren)
      case Thrown(e) => Thrown(e)
      case Ok(methodName) => Ok((className, methodName))
  }

  /** The split succeeds exactly when the last '.' comes before the last '(';
      then class name, '.', method name and the argument list give back the
      whole string, and otherwise `substring` throws. */
  lemma SplitVersionFunctionParts(f: string)
    ensures var r := SplitVersionFunction(f);
            (r.Ok? <==> 0 <= LastIndexOf(f, '.') < LastIndexOf(f, '(')) &&
            (r.Ok? ==> r.value.0 + "." + r.value.1 + f[LastIndexOf(f, '(')..] == f &&
                       '.' !in r.value.1 && '(' !in f[LastIndexOf(f, '(') + 1..]) &&
            (r.Thrown? ==> r.exception == StringIndexOutOfBoundsException)
  {
    var dot := LastIndexOf(f, '.');
    var paren := LastIndexOf(f, '(');
    if 0 <= dot < paren {
      assert f == f[..dot] + [f[dot]] + f[dot + 1..paren] + f[paren..];
    }
  }

  /** `getActualVersion()`: the split happens outside the `try`, so its
      exception escapes; every reflective failure yields null. */
  function ActualVersion(c: Candidate): Result<Option<string>> {
    match SplitVersionFunction(c.version.versionFunction)
    case Thrown(e) => Thrown(e)
    case Ok(_) => Ok(c.reflected)
  }

  /** A found version is good enough when it is not smaller, ignoring case,
      than the required one. */
  predicate Satisfies(actual: string, required: string) {
    CompareToIgnoreCase(actual, required) >= 0
  }

  /** The loop stops at a candidate whose version lookup throws or whose
      found version is good enough. */
  predicate StopsAt(c: Candidate) {
    StopsOn(c.version, ActualVersion(c))
  }

  predicate StopsOn(v: ClassVersion, actual: Result<Option<string>>) {
    match actual
    case Thrown(_) => true
    case Ok(None) => false
    case Ok(Some(found)) => Satisfies(found, v.requiredVersion)
  }

  /** The first candidate the loop stops at. */
  function FirstStop(cs: seq<Candidate>): (r: Option<nat>)
    ensures r.Some? ==> r.value < |cs| && StopsAt(cs[r.value])
    ensures r.Some? ==> forall k :: 0 <= k < r.value ==> !StopsAt(cs[k])
    ensures r.None? ==> forall k :: 0 <= k < |cs| ==> !StopsAt(cs[k])
  {
    if cs == [] then None
    else if StopsAt(cs[0]) then Some(0)
    else match FirstStop(cs[1..])
      case None => None
      case Some(i) => Some(i + 1)
  }

  /** A candidate whose found version is good enough. */
  predicate FoundValid(c: Candidate) {
    ActualVersion(c).Ok? && ActualVersion(c).value.Some? &&
    Satisfies(ActualVersion(c).value.value, c.version.requiredVersion)
  }

  /** The result of `hasValidClassVersion`: true at the first good enough
      candidate, false when there is none, and the exception of a version
      lookup that throws before a good candidate is reached. */
  function Verdict(cs: seq<Candidate>): (r: Result<bool>)
    ensures r == Ok(false) <==> forall k :: 0 <= k < |cs| ==> !StopsAt(cs[k])
    ensures r == Ok(true) <==> exists k :: 0 <= k < |cs| && FoundValid(cs[k]) && FirstStop(cs) == Some(k)
  {
    match FirstStop(cs)
    case None => Ok(false)
    case Some(k) =>
      match ActualVersion(cs[k])
      case Thrown(e) => Thrown(e)
      case Ok(_) => Ok(true)
  }

  /** When no version lookup throws, the check succeeds exactly when some
      candidate has a version that is good enough. */
  lemma VerdictWithoutThrows(cs: seq<Candidate>)
    requires forall k :: 0 <= k < |cs| ==> ActualVersion(cs[k]).Ok?
    ensures Verdict(cs) == Ok(exists k :: 0 <= k < |cs| && FoundValid(cs[k]))
  {
    match FirstStop(cs)
    case None =>
      assert forall k :: 0 <= k < |cs| ==> !FoundValid(cs[k]) by {
        forall k | 0 <= k < |cs| ensures !FoundValid(cs[k]) {
          assert !StopsAt(cs[k]);
        }
      }
    case Some(k) =>
      assert FoundValid(cs[k]);
  }

  // The fixed parts of the report.
  const LookingFor := "Looking for a valid "
  const Ellipsis := "..."
  const CheckingFor := "Checking for "
  const NotFound := ", not found!"
  const FoundVersion := ", found version "
  const OkMark := "OK!"
  const NeededVersion := " needed version "
  const FailedFind := "Warning: Failed find a valid "
  const Exclamation := "!"
  const PleaseAdd := "Please add an appropriate "
  const ClassPathHint := " to the class-path, e.g. in the 'endorsed' folder of the servlet container or in the 'endorsed' folder of the JRE."

  function Header(kind: string, sep: string): string {
    LookingFor + kind + Ellipsis + sep
  }

  /** What the loop appends for one candidate it examined. */
  function Line(c: Candidate, sep: string): string {
    LineFor(c.version, ActualVersion(c), sep)
  }

  function LineFor(v: ClassVersion, actual: Result<Option<string>>, sep: string): string {
    match actual
    case Thrown(_) => ""
    case Ok(a) => (CheckingFor + v.simpleName) + FoundPart(v, a, sep)
  }

  /** The rest of a line, after the candidate's name. */
  function FoundPart(v: ClassVersion, actual: Option<string>, sep: string): string {
    match actual
    case None => NotFound + sep
    case Some(found) =>
      (FoundVersion + found) +
      (if Satisfies(found, v.requiredVersion) then sep + OkMark + sep
       else NeededVersion + v.requiredVersion + sep)
  }

  function Lines(cs: seq<Candidate>, sep: string): string {
    if cs == [] then [] else Lines(cs[..|cs| - 1], sep) + Line(cs[|cs| - 1], sep)
  }

  /** The two appends after the loop found nothing: the warning, then the
      hint to put a suitable library on the class path. */
  function Failure(kind: string, sep: string): string {
    (FailedFind + kind + Exclamation + sep) + (sep + PleaseAdd + kind + ClassPathHint + sep)
  }

  /** Everything `hasValidClassVersion` appends: the header, one line per
      examined candidate up to the one it stops at, and the failure lines
      when it stops at none. */
  function Report(kind: string, cs: seq<Candidate>, sep: string): string {
    match FirstStop(cs)
    case None => Header(kind, sep) + Lines(cs, sep) + Failure(kind, sep)
    case Some(k) => Header(kind, sep) + Lines(cs[..k + 1], sep)
  }

  /** A `java.lang.StringBuilder`, which is only ever appended to. */
  class StringBuilder {
    var text: string

    constructor ()
      ensures text == ""
    {
      text := "";
    }

    method Append(s: string)
      modifies this
      ensures text == old(text) + s
    {
      text := text + s;
    }
  }

  /** One round of the loop, for a candidate whose version lookup returned
      `actual`: the lines appended, and whether the loop returns true here. */
  method CheckCandidate(c: ClassVersion, actual: Option<string>, sep: string, message: StringBuilder)
    returns (ok: bool)
    modifies message
    ensures ok == StopsOn(c, Ok(actual))
    ensures message.text == old(message.text) + LineFor(c, Ok(actual), sep)
  {
    ghost var start := message.text;
    message.Append(CheckingFor + c.simpleName);
    ghost var named := message.text;
    if actual.Some? {
      ok := CheckFoundVersion(c, actual.value, sep, message);
    } else {
      message.Append(NotFound + sep);
      ok := false;
    }
    assert message.text == named + FoundPart(c, actual, sep);
    ConcatAssociative(start, CheckingFor + c.simpleName, FoundPart(c, actual, sep));
  }

  /** The part of a round after a version was found. */
  method CheckFoundVersion(c: ClassVersion, v: string, sep: string, message: StringBuilder)
    returns (ok: bool)
    modifies message
    ensures ok == Satisfies(v, c.requiredVersion)
    ensures message.text == old(message.text) + FoundPart(c, Some(v), sep)
  {
    message.Append(FoundVersion + v);
    if CompareToIgnoreCase(v, c.requiredVersion) >= 0 {
      message.Append(sep + OkMark + sep);
      return true;
    } else {
      message.Append(NeededVersion + c.requiredVersion + sep);
      return false;
    }
  }

  /** The candidate the loop stops at first is the one before which it
      stops at none. */
  lemma FirstStopAt(cs: seq<Candidate>, i: nat)
    requires i < |cs| && StopsAt(cs[i]) && forall k :: 0 <= k < i ==> !StopsAt(cs[k])
    ensures FirstStop(cs) == Some(i)
  {
  }

  /** Where the loop stops at candidate `i`, the report ends with its line. */
  lemma StopReport(kind: string, cs: seq<Candidate>, i: nat, sep: string)
    requires i < |cs| && StopsAt(cs[i]) && forall k :: 0 <= k < i ==> !StopsAt(cs[k])
    ensures FirstStop(cs) == Some(i)
    ensures Report(kind, cs, sep) == Header(kind, sep) + Lines(cs[..i + 1], sep)
    ensures Verdict(cs) == if ActualVersion(cs[i]).Thrown? then Thrown(ActualVersion(cs[i]).exception) else Ok(true)
  {
    FirstStopAt(cs, i);
    ReportAtStop(kind, cs, i, sep);
    VerdictAtStop(cs, i);
  }

  lemma ReportAtStop(kind: string, cs: seq<Candidate>, i: nat, sep: string)
    requires i < |cs| && FirstStop(cs) == Some(i)
    ensures Report(kind, cs, sep) == Header(kind, sep) + Lines(cs[..i + 1], sep)
  {
  }

  lemma VerdictAtStop(cs: seq<Candidate>, i: nat)
    requires i < |cs| && FirstStop(cs) == Some(i)
    ensures Verdict(cs) == if ActualVersion(cs[i]).Thrown? then Thrown(ActualVersion(cs[i]).exception) else Ok(true)
  {
  }

  /** Where the loop stops nowhere, the report ends with the failure lines. */
  lemma NoStopReport(kind: string, cs: seq<Candidate>, sep: string)
    requires forall k :: 0 <= k < |cs| ==> !StopsAt(cs[k])
    ensures Report(kind, cs, sep) == Header(kind, sep) + Lines(cs, sep) + Failure(kind, sep)
    ensures Verdict(cs) == Ok(false)
  {
  }

  /** `hasValidClassVersion(kind, candidates, message)`; `sep` is the line
      separator. */
  method HasValidClassVersion(kind: string, cs: seq<Candidate>, sep: string, message: StringBuilder)
    returns (r: Result<bool>)
    modifies message
    ensures r == Verdict(cs)
    ensures message.text == old(message.text) + Report(kind, cs, sep)
  {
    ghost var start := old(message.text) + Header(kind, sep);
    message.Append(Header(kind, sep));
    var i := 0;
    while i < |cs|
      invariant 0 <= i <= |cs|
      invariant forall k :: 0 <= k < i ==> !StopsAt(cs[k])
      invariant message.text == start + Lines(cs[..i], sep)
    {
      ghost var before := Lines(cs[..i], sep);
      assert cs[..i + 1][..i] == cs[..i];
      assert Lines(cs[..i + 1], sep) == before + Line(cs[i], sep);
      var c := cs[i];
      var actual := ActualVersion(c);
      if actual.Thrown? {
        StopReport(kind, cs, i, sep);
        assert Line(c, sep) == [] && before + [] == before;
        ConcatAssociative(old(message.text), Header(kind, sep), before);
        return Thrown(actual.exception);
      }
      var ok := CheckCandidate(c.version, actual.value, sep, message);
      ConcatAssociative(start, before, Line(c, sep));
      if ok {
        StopReport(kind, cs, i, sep);
        ConcatAssociative(old(message.text), Header(kind, sep), Lines(cs[..i + 1], sep));
        return Ok(true);
      }
      i := i + 1;
    }
    assert cs[..i] == cs;
    NoStopReport(kind, cs, sep);
    ghost var examined := message.text;
    message.Append(FailedFind + kind + Exclamation + sep);
    message.Append(sep + PleaseAdd + kind + ClassPathHint + sep);
    ConcatAssociative(examined, FailedFind + kind + Exclamation + sep, sep + PleaseAdd + kind + ClassPathHint + sep);
    ConcatAssociative(old(message.text), Header(kind, sep), Lines(cs, sep));
    ConcatAssociative(old(message.text), Header(kind, sep) + Lines(cs, sep), Failure(kind, sep));
    return Ok(false);
  }

  /** Appending candidates after the first stop does not move it. */
  lemma FirstStopExtends(cs: seq<Candidate>, more: seq<Candidate>)
    requires FirstStop(cs).Some?
    ensures FirstStop(cs + more) == FirstStop(cs)
  {
    var k := FirstStop(cs).value;
    var all := cs + more;
    assert all[k] == cs[k];
    forall j | 0 <= j < k
      ensures !StopsAt(all[j])
    {
      assert all[j] == cs[j];
    }
    FirstStopAt(all, k);
  }

  /** Candidates after the one the check stops at play no part in it. */
  lemma LaterCandidatesIgnored(kind: string, cs: seq<Candidate>, more: seq<Candidate>, sep: string)
    requires FirstStop(cs).Some?
    ensures FirstStop(cs + more) == FirstStop(cs)
    ensures Verdict(cs + more) == Verdict(cs)
    ensures Report(kind, cs + more, sep) == Report(kind, cs, sep)
  {
    FirstStopExtends(cs, more);
    var k := FirstStop(cs).value;
    assert (cs + more)[k] == cs[k];
    assert (cs + more)[..k + 1] == cs[..k + 1];
  }

  /** The lines up to candidate `k` are those before it and its own. */
  lemma LinesThrough(cs: seq<Candidate>, k: nat, sep: string)
    requires k < |cs|
    ensures Lines(cs[..k + 1], sep) == Lines(cs[..k], sep) + Line(cs[k], sep)
  {
    var front := cs[..k + 1];
    assert front[..|front| - 1] == cs[..k];
  }

  /** The line of a candidate found good enough ends with "OK!". */
  lemma ValidLineEndsWithOk(c: Candidate, sep: string)
    requires FoundValid(c)
    ensures EndsWith(Line(c, sep), sep + OkMark + sep)
  {
    var v := ActualVersion(c).value.value;
    EndsWithItself(sep + OkMark + sep);
    EndsWithLastPart(FoundVersion + v, sep + OkMark + sep, sep + OkMark + sep);
    EndsWithLastPart(CheckingFor + c.version.simpleName, FoundPart(c.version, Some(v), sep), sep + OkMark + sep);
  }

  /** When a candidate is found good enough, the report ends with "OK!". */
  lemma ReportEndsWithOk(kind: string, cs: seq<Candidate>, sep: string)
    requires Verdict(cs) == Ok(true)
    ensures EndsWith(Report(kind, cs, sep), sep + OkMark + sep)
  {
    var k :| 0 <= k < |cs| && FoundValid(cs[k]) && FirstStop(cs) == Some(k);
    LinesThrough(cs, k, sep);
    ValidLineEndsWithOk(cs[k], sep);
    EndsWithLastPart(Lines(cs[..k], sep), Line(cs[k], sep), sep + OkMark + sep);
    EndsWithLastPart(Header(kind, sep), Lines(cs[..k + 1], sep), sep + OkMark + sep);
  }

  /** When no candidate is good enough, the report ends with the warning and
      the class-path hint. */
  lemma ReportEndsWithWarning(kind: string, cs: seq<Candidate>, sep: string)
    requires Verdict(cs) == Ok(false)
    ensures EndsWith(Report(kind, cs, sep), Failure(kind, sep))
  {
    assert FirstStop(cs).None?;
    EndsWithItself(Failure(kind, sep));
    EndsWithLastPart(Header(kind, sep) + Lines(cs, sep), Failure(kind, sep), Failure(kind, sep));
  }

  /** The report always starts with the header naming the kind of service. */
  lemma ReportStartsWithHeader(kind: string, cs: seq<Candidate>, sep: string)
    ensures StartsWith(Report(kind, cs, sep), Header(kind, sep))
  {
    var h := Header(kind, sep);
    match FirstStop(cs)
    case None =>
      ConcatAssociative(h, Lines(cs, sep), Failure(kind, sep));
      StartsWithFirstPart(h, Lines(cs, sep) + Failure(kind, sep));
    case Some(k) =>
      StartsWithFirstPart(h, Lines(cs[..k + 1], sep));
  }

  /** Case-insensitive lexicographic comparison ranks "Xerces-J 2.10.0"
      below the required "Xerces-J 2.9.1", so that newer Xerces is rejected. */
  lemma NewerXercesRejected()
    ensures !Satisfies("Xerces-J 2." + "10.0", "Xerces-J 2." + "9.1")
  {
    CompareToIgnoreCaseCommonPrefix("Xerces-J 2.", "10.0", "9.1");
    var a, b := ToLowerAsciiString("10.0"), ToLowerAsciiString("9.1");
    assert a[0] == ToLowerAscii('1') == '1' && b[0] == ToLowerAscii('9') == '9';
  }

  /** The candidate lists of `check`, each `ClassVersion` paired with its
      reflective result. */
  function Pair(vs: seq<ClassVersion>, reflected: seq<Option<string>>): (r: seq<Candidate>)
    requires |vs| == |reflected|
    ensures |r| == |vs| && forall k :: 0 <= k < |r| ==> r[k] == Candidate(vs[k], reflected[k])
  {
    if vs == [] then [] else [Candidate(vs[0], reflected[0])] + Pair(vs[1..], reflected[1..])
  }

  /** `check()`: each kind is checked with a fresh buffer, and an invalid
      version is found exactly when one of the three checks fails. An
      exception from a version lookup escapes. */
  method Check(parser: seq<Option<string>>, transformer: seq<Option<string>>, resolver: seq<Option<string>>, sep: string)
    returns (invalidVersionFound: Result<bool>)
    requires |parser| == |ValidParsers| && |transformer| == |ValidTransformers| && |resolver| == |ValidResolvers|
    ensures var p := Verdict(Pair(ValidParsers, parser));
            var t := Verdict(Pair(ValidTransformers, transformer));
            var s := Verdict(Pair(ValidResolvers, resolver));
            invalidVersionFound ==
              if p.Thrown? then p
              else if t.Thrown? then t
              else if s.Thrown? then s
              else Ok(!p.value || !t.value || !s.value)
  {
    var found := false;
    var message := new StringBuilder();
    var p := HasValidClassVersion("Parser", Pair(ValidParsers, parser), sep, message);
    if p.Thrown? {
      return Thrown(p.exception);
    }
    if !p.value {
      found := true;
    }
    message := new StringBuilder();
    var t := HasValidClassVersion("Transformer", Pair(ValidTransformers, transformer), sep, message);
    if t.Thrown? {
      return Thrown(t.exception);
    }
    if !t.value {
      found := true;
    }
    message := new StringBuilder();
    var s := HasValidClassVersion("Resolver", Pair(ValidResolvers, resolver), sep, message);
    if s.Thrown? {
      return Thrown(s.exception);
    }
    if !s.value {
      found := true;
    }
    return Ok(found);
  }
}
