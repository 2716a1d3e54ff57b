/**
  `UpdaterService`: the version comparison, the appcast parser delegate, and the
  decision to announce an update. The network fetch, the timers and the
  notification are not modelled; the XML parser is modelled by the sequence of
  callbacks it makes.
 */
module Updater {
  import opened Wrappers
  import opened Text

  /**
    `v.split(separator: ".").compactMap { Int($0) }`: at most one component per
    piece; `ComponentsFromPieces` says where each comes from.
   */
  function Components(v: string): (r: seq<int>)
    ensures |r| <= |Split(v, '.')|
  {
    CompactInts(Split(v, '.'))
  }

  /** Every component is the 64-bit value of some non-empty, dot-free piece of the version. */
  lemma ComponentsFromPieces(v: string)
    ensures |Components(v)| <= |Split(v, '.')|
    ensures forall k :: 0 <= k < |Components(v)| ==> exists p :: (p in Split(v, '.') && p != "" &&
      '.' !in p && ParseInt(p) == Some(Components(v)[k]) && IntMin <= Components(v)[k] <= IntMax)
  {
    var parts := Split(v, '.');
    CompactIntsSound(parts);
    forall k | 0 <= k < |Components(v)|
      ensures exists p :: (p in parts && p != "" && '.' !in p &&
        ParseInt(p) == Some(Components(v)[k]) && IntMin <= Components(v)[k] <= IntMax)
    {
      var j :| 0 <= j < |parts| && ParseInt(parts[j]) == Some(Components(v)[k]);
      assert parts[j] in parts && |parts[j]| > 0;
      assert '.' !in parts[j] by {
        forall i | 0 <= i < |parts[j]| ensures parts[j][i] != '.' { }
      }
    }
  }

  /**
    The order `isNewerVersion` decides: over the common prefix the first
    differing component decides; if the prefix is equal, the longer one is newer.
   */
  function NewerComponents(a: seq<int>, b: seq<int>): bool
    decreases |a|
  {
    if |a| == 0 || |b| == 0 then |a| > |b|
    else if a[0] > b[0] then true
    else if a[0] < b[0] then false
    else NewerComponents(a[1..], b[1..])
  }

  predicate IsNewer(newVersion: string, currentVersion: string) {
    NewerComponents(Components(newVersion), Components(currentVersion))
  }

  /** `isNewerVersion(_:than:)`: the indexed loop with early returns. */
  method IsNewerVersion(newVersion: string, currentVersion: string) returns (newer: bool)
    ensures newer == IsNewer(newVersion, currentVersion)
  {
    var newComponents := Components(newVersion);
    var currentComponents := Components(currentVersion);
    var n := if |newComponents| < |currentComponents| then |newComponents| else |currentComponents|;
    for i := 0 to n
      invariant NewerComponents(newComponents, currentComponents) ==
        NewerComponents(newComponents[i..], currentComponents[i..])
    {
      assert newComponents[i..][1..] == newComponents[i + 1..];
      assert currentComponents[i..][1..] == currentComponents[i + 1..];
      if newComponents[i] > currentComponents[i] {
        return true;
      } else if newComponents[i] < currentComponents[i] {
        return false;
      }
    }
    return |newComponents| > |currentComponents|;
  }

  /** No version is newer than itself. */
  lemma {:induction false} NewerIrreflexive(a: seq<int>)
    ensures !NewerComponents(a, a)
    decreases |a|
  {
    if |a| > 0 {
      NewerIrreflexive(a[1..]);
    }
  }

  /** Of two versions, at most one is newer than the other. */
  lemma {:induction false} NewerAsymmetric(a: seq<int>, b: seq<int>)
    ensures NewerComponents(a, b) ==> !NewerComponents(b, a)
    decreases |a|
  {
    if |a| > 0 && |b| > 0 && a[0] == b[0] {
      NewerAsymmetric(a[1..], b[1..]);
    }
  }

  lemma {:induction false} NewerTransitive(a: seq<int>, b: seq<int>, c: seq<int>)
    requires NewerComponents(a, b) && NewerComponents(b, c)
    ensures NewerComponents(a, c)
    decreases |a|
  {
    if |a| > 0 && |b| > 0 && |c| > 0 && a[0] == b[0] && b[0] == c[0] {
      NewerTransitive(a[1..], b[1..], c[1..]);
    }
  }

  /** With an equal common prefix, the first differing component decides. */
  lemma {:induction false} FirstDifferenceDecides(a: seq<int>, b: seq<int>, k: nat)
    requires k < |a| && k < |b|
    requires a[..k] == b[..k] && a[k] != b[k]
    ensures NewerComponents(a, b) <==> a[k] > b[k]
    decreases k
  {
    if k > 0 {
      assert a[0] == a[..k][0] == b[..k][0] == b[0];
      assert a[1..][..k - 1] == a[1..k] == b[1..k] == b[1..][..k - 1];
      FirstDifferenceDecides(a[1..], b[1..], k - 1);
    }
  }

  /** If one list is a prefix of the other, the longer one is newer. */
  lemma {:induction false} EqualPrefixLongerWins(a: seq<int>, b: seq<int>)
    requires |a| <= |b| ==> a == b[..|a|]
    requires |b| <= |a| ==> b == a[..|b|]
    ensures NewerComponents(a, b) <==> |a| > |b|
    decreases |a|
  {
    if |a| > 0 && |b| > 0 {
      assert a[0] == b[0];
      assert |a| <= |b| ==> a[1..] == b[1..][..|a| - 1];
      assert |b| <= |a| ==> b[1..] == a[1..][..|b| - 1];
      EqualPrefixLongerWins(a[1..], b[1..]);
    }
  }

  predicate DotFree(p: string) {
    p != "" && forall i :: 0 <= i < |p| ==> p[i] != '.'
  }

  lemma SplitTwo(a: string, b: string)
    requires DotFree(a) && DotFree(b)
    ensures Split(a + ['.'] + b, '.') == [a, b]
  {
    SplitAtSep(a, '.', b);
    SplitNoSep(a, '.');
    SplitNoSep(b, '.');
  }

  lemma SplitThree(a: string, b: string, c: string)
    requires DotFree(a) && DotFree(b) && DotFree(c)
    ensures Split(a + ['.'] + b + ['.'] + c, '.') == [a, b, c]
  {
    SplitAtSep(a + ['.'] + b, '.', c);
    SplitTwo(a, b);
    SplitNoSep(c, '.');
  }

  lemma CompactOne(p: string)
    ensures CompactInts([p]) == if ParseInt(p).Some? then [ParseInt(p).value] else []
  {
    CompactIntsSplice([], p, []);
    assert [] + [p] + [] == [p];
  }

  /** A single digit parses to its value. */
  lemma Digit(s: string, v: int)
    requires |s| == 1 && IsDigit(s[0]) && v == s[0] as int - '0' as int
    ensures ParseInt(s) == Some(v)
  {
    assert AllDigits(s);
    assert DigitsValue(s[..0]) == 0;
    assert DigitsValue(s) == v;
  }

  /** A single character that is neither a digit nor a sign does not parse. */
  lemma NotDigit(s: string)
    requires |s| == 1 && !IsDigit(s[0]) && !IsSign(s[0])
    ensures ParseInt(s) == None
  {
    assert Unsigned(s) == s;
  }

  /** Components that are not integers are dropped: "1.x.2" compares as [1, 2]. */
  lemma NonNumericDropped()
    ensures Components("1.x.2") == [1, 2]
  {
    assert "1.x.2" == "1" + ['.'] + "x" + ['.'] + "2";
    SplitThree("1", "x", "2");
    Digit("1", 1);
    Digit("2", 2);
    NotDigit("x");
    CompactOne("1");
    CompactOne("x");
    CompactOne("2");
    assert ["1", "x", "2"] == ["1"] + ["x"] + ["2"];
    CompactIntsAppend(["1"], ["x"]);
    CompactIntsAppend(["1"] + ["x"], ["2"]);
  }

  lemma ComponentsOneZeroZero()
    ensures Components("1.0.0") == [1, 0, 0]
  {
    assert "1.0.0" == "1" + ['.'] + "0" + ['.'] + "0";
    SplitThree("1", "0", "0");
    Digit("1", 1);
    Digit("0", 0);
    CompactOne("1");
    CompactOne("0");
    assert ["1", "0", "0"] == ["1"] + ["0"] + ["0"];
    CompactIntsAppend(["1"], ["0"]);
    CompactIntsAppend(["1"] + ["0"], ["0"]);
  }

  lemma ComponentsOneZero()
    ensures Components("1.0") == [1, 0]
  {
    assert "1.0" == "1" + ['.'] + "0";
    SplitTwo("1", "0");
    Digit("1", 1);
    Digit("0", 0);
    CompactOne("1");
    CompactOne("0");
    assert ["1", "0"] == ["1"] + ["0"];
    CompactIntsAppend(["1"], ["0"]);
  }

  /** "1.0.0" is newer than "1.0", and "1.0" is not newer than "1.0.0". */
  lemma LongerIsNewer()
    ensures IsNewer("1.0.0", "1.0") && !IsNewer("1.0", "1.0.0")
  {
    ComponentsOneZeroZero();
    ComponentsOneZero();
    EqualPrefixLongerWins([1, 0, 0], [1, 0]);
    EqualPrefixLongerWins([1, 0], [1, 0, 0]);
  }

  /** One callback `XMLParser` makes on its delegate. */
  datatype XmlEvent =
    | StartElement(name: string, attributes: map<string, string>)
    | Characters(text: string)
    | EndElement(name: string)

  /** `URL(string:)`: only the empty string is refused here. */
  function ParseUrl(s: string): (u: Option<string>)
    ensures u.Some? <==> s != ""
    ensures u.Some? ==> u.value == s
  {
    if s == "" then None else Some(s)
  }

  /** The delegate's fields as one value. */
  datatype ParserState = ParserState(
    latestVersion: Option<string>,
    releaseNotes: Option<string>,
    downloadUrl: Option<string>,
    currentElement: string,
    currentEnclosure: map<string, string>)

  const InitialState: ParserState := ParserState(None, None, None, "", map[])

  /**
    The effect of one callback on the delegate: only non-blank text in a
    `sparkle:version` or `sparkle:releaseNotesLink` element with nothing found
    yet sets a found field, only the end of an enclosure sets the download URL,
    and every end tag clears the current element.
   */
  function Step(s: ParserState, e: XmlEvent): (r: ParserState)
    ensures r.latestVersion != s.latestVersion ==> (e.Characters? && Trim(e.text) != "" &&
      s.currentElement == "sparkle:version" && s.latestVersion.None? && r.latestVersion == Some(Trim(e.text)))
    ensures r.releaseNotes != s.releaseNotes ==> (e.Characters? && Trim(e.text) != "" &&
      s.currentElement == "sparkle:releaseNotesLink" && s.releaseNotes.None? && r.releaseNotes == Some(Trim(e.text)))
    ensures r.downloadUrl != s.downloadUrl ==> e.EndElement? && e.name == "enclosure"
    ensures r.currentEnclosure != s.currentEnclosure ==> e.StartElement? && e.name == "enclosure"
    ensures e.StartElement? ==> r.currentElement == e.name
    ensures e.Characters? ==> r.currentElement == s.currentElement
    ensures e.EndElement? ==> r.currentElement == ""
  {
    match e
    case StartElement(name, attributes) =>
      s.(currentElement := name,
         currentEnclosure := if name == "enclosure" then attributes else s.currentEnclosure)
    case Characters(text) =>
      var trimmed := Trim(text);
      if trimmed == "" then s
      else if s.currentElement == "sparkle:version" && s.latestVersion.None? then
        s.(latestVersion := Some(trimmed))
      else if s.currentElement == "sparkle:releaseNotesLink" && s.releaseNotes.None? then
        s.(releaseNotes := Some(trimmed))
      else s
    case EndElement(name) =>
      if name == "enclosure" && "url" in s.currentEnclosure then
        s.(downloadUrl := ParseUrl(s.currentEnclosure["url"]), currentElement := "")
      else s.(currentElement := "")
  }

  function Run(s: ParserState, events: seq<XmlEvent>): ParserState
    decreases |events|
  {
    if |events| == 0 then s else Run(Step(s, events[0]), events[1..])
  }

  lemma {:induction false} RunAppend(s: ParserState, a: seq<XmlEvent>, b: seq<XmlEvent>)
    ensures Run(s, a + b) == Run(Run(s, a), b)
    decreases |a|
  {
    if |a| == 0 {
      assert a + b == b;
    } else {
      assert (a + b)[0] == a[0];
      assert (a + b)[1..] == a[1..] + b;
      RunAppend(Step(s, a[0]), a[1..], b);
    }
  }

  /** No single callback replaces a version or release-notes link already found. */
  lemma StepKeepsFound(s: ParserState, e: XmlEvent)
    ensures s.latestVersion.Some? ==> Step(s, e).latestVersion == s.latestVersion
    ensures s.releaseNotes.Some? ==> Step(s, e).releaseNotes == s.releaseNotes
  {
  }

  /** The first version found wins: once set, no later callback changes it. */
  lemma {:induction false} VersionFirstWins(s: ParserState, events: seq<XmlEvent>)
    requires s.latestVersion.Some?
    ensures Run(s, events).latestVersion == s.latestVersion
    decreases |events|
  {
    if |events| > 0 {
      StepKeepsFound(s, events[0]);
      VersionFirstWins(Step(s, events[0]), events[1..]);
    }
  }

  /** Likewise for the release-notes link. */
  lemma {:induction false} NotesFirstWins(s: ParserState, events: seq<XmlEvent>)
    requires s.releaseNotes.Some?
    ensures Run(s, events).releaseNotes == s.releaseNotes
    decreases |events|
  {
    if |events| > 0 {
      StepKeepsFound(s, events[0]);
      NotesFirstWins(Step(s, events[0]), events[1..]);
    }
  }

  /** Text made only of whitespace and newlines changes nothing. */
  lemma WhitespaceIgnored(s: ParserState, text: string)
    requires AllWhitespace(text)
    ensures Step(s, Characters(text)) == s
  {
  }

  /** The first non-blank text of a `sparkle:version` element is taken, trimmed. */
  lemma VersionTaken(s: ParserState, attributes: map<string, string>, text: string)
    requires s.latestVersion.None? && !AllWhitespace(text)
    ensures Run(s, [StartElement("sparkle:version", attributes), Characters(text)]).latestVersion == Some(Trim(text))
  {
    var t := Step(s, StartElement("sparkle:version", attributes));
    assert Run(s, [StartElement("sparkle:version", attributes), Characters(text)]) == Run(t, [Characters(text)]);
    assert Run(t, [Characters(text)]) == Step(t, Characters(text));
  }

  /** Any end tag clears the current element, so text after it is ignored. */
  lemma TextAfterEndIgnored(s: ParserState, name: string, text: string)
    ensures Step(Step(s, EndElement(name)), Characters(text)) == Step(s, EndElement(name))
  {
  }

  /** Closing an enclosure takes its `url`, whatever an earlier enclosure gave: the last one wins. */
  lemma LastEnclosureWins(s: ParserState, attributes: map<string, string>)
    requires "url" in attributes
    ensures Run(s, [StartElement("enclosure", attributes), EndElement("enclosure")]).downloadUrl ==
      ParseUrl(attributes["url"])
  {
    var t := Step(s, StartElement("enclosure", attributes));
    assert Run(s, [StartElement("enclosure", attributes), EndElement("enclosure")]) == Run(t, [EndElement("enclosure")]);
    assert Run(t, [EndElement("enclosure")]) == Step(t, EndElement("enclosure"));
  }

  /** `AppcastParserDelegate`. */
  class AppcastParserDelegate {
    var latestVersion: Option<string>
    var releaseNotes: Option<string>
    var downloadUrl: Option<string>
    var currentElement: string
    var currentEnclosure: map<string, string>

    function State(): ParserState
      reads this
    {
      ParserState(latestVersion, releaseNotes, downloadUrl, currentElement, currentEnclosure)
    }

    constructor ()
      ensures State() == InitialState
    {
      latestVersion := None;
      releaseNotes := None;
      downloadUrl := None;
      currentElement := "";
      currentEnclosure := map[];
    }

    /** `parser(_:didStartElement:...)`. */
    method DidStartElement(elementName: string, attributes: map<string, string>)
      modifies this
      ensures State() == Step(old(State()), StartElement(elementName, attributes))
    {
      currentElement := elementName;
      if elementName == "enclosure" {
        currentEnclosure := attributes;
      }
    }

    /** `parser(_:foundCharacters:)`. */
    method FoundCharacters(text: string)
      modifies this
      ensures State() == Step(old(State()), Characters(text))
    {
      var trimmed := Trim(text);
      if trimmed == "" {
        return;
      }
      if currentElement == "sparkle:version" {
        if latestVersion.None? {
          latestVersion := Some(trimmed);
        }
      } else if currentElement == "sparkle:releaseNotesLink" {
        if releaseNotes.None? {
          releaseNotes := Some(trimmed);
        }
      }
    }

    /** `parser(_:didEndElement:...)`. */
    method DidEndElement(elementName: string)
      modifies this
      ensures State() == Step(old(State()), EndElement(elementName))
    {
      if elementName == "enclosure" && "url" in currentEnclosure {
        downloadUrl := ParseUrl(currentEnclosure["url"]);
      }
      currentElement := "";
    }

    /** What `XMLParser.parse()` does to its delegate: deliver the callbacks in document order. */
    method Deliver(events: seq<XmlEvent>)
      modifies this
      ensures State() == Run(old(State()), events)
    {
      for i := 0 to |events|
        invariant Run(old(State()), events) == Run(State(), events[i..])
      {
        assert events[i..][1..] == events[i + 1..];
        match events[i]
        case StartElement(name, attributes) => DidStartElement(name, attributes);
        case Characters(text) => FoundCharacters(text);
        case EndElement(name) => DidEndElement(name);
      }
    }
  }

  /** The `@Published` state of `UpdaterService` and its appcast handling. */
  class UpdaterService {
    var currentVersion: string
    var availableVersion: Option<string>
    var updateAvailable: bool
    var releaseNotes: string
    var downloadUrl: Option<string>

    /** `init()`: `bundleVersion` is `CFBundleShortVersionString` when the bundle has one. */
    constructor (bundleVersion: Option<string>)
      ensures currentVersion == bundleVersion.GetOr("1.0.0")
      ensures availableVersion == None && !updateAvailable && releaseNotes == "" && downloadUrl == None
    {
      currentVersion := bundleVersion.GetOr("1.0.0");
      availableVersion := None;
      updateAvailable := false;
      releaseNotes := "";
      downloadUrl := None;
    }

    /**
      `parseAppcast(_:)`, given the callbacks the parser makes and whether
      `parse()` reports success. The update is announced only when a version was
      found and it is newer than the current one; otherwise nothing changes.
     */
    method ParseAppcast(events: seq<XmlEvent>, parsed: bool)
      modifies this
      ensures currentVersion == old(currentVersion)
      ensures var st := Run(InitialState, events);
        if parsed && st.latestVersion.Some? && IsNewer(st.latestVersion.value, old(currentVersion)) then
          availableVersion == st.latestVersion && updateAvailable &&
          releaseNotes == st.releaseNotes.GetOr("") && downloadUrl == st.downloadUrl
        else
          availableVersion == old(availableVersion) && updateAvailable == old(updateAvailable) &&
          releaseNotes == old(releaseNotes) && downloadUrl == old(downloadUrl)
    {
      var delegate := new AppcastParserDelegate();
      delegate.Deliver(events);
      if parsed && delegate.latestVersion.Some? {
        var latest := delegate.latestVersion.value;
        var newer := IsNewerVersion(latest, currentVersion);
        if newer {
          availableVersion := Some(latest);
          releaseNotes := delegate.releaseNotes.GetOr("");
          downloadUrl := delegate.downloadUrl;
          updateAvailable := true;
        }
      }
    }
  }
}
