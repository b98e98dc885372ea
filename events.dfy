/** The messages that adapters, services and the UPnP manager post to the
    controller's event loop, and the one-line description logged for each. */
module Events {
  import opened Common
  import opened Upnp

  datatype EventData =
    | AdapterStart(name: string)
    | ServiceStart(id: string)
    | ServiceStop(id: string)
    | UpnpServiceDiscovered(service: UpnpService)
    | UpnpSearch(target: Option<string>)

  /** The escape sequence Rust's `Debug` writes for one character of a string:
      backslash escapes for the quote, the backslash and the common control
      characters, the character itself otherwise. */
  function EscapeChar(c: char): (r: string)
    ensures 1 <= |r| <= 2
    ensures |r| == 2 <==> c in "\"\\\n\r\t\0"
    ensures |r| == 2 ==> r[0] == '\\'
    ensures |r| == 1 ==> r == [c] && c != '\\'
  {
    match c
    case '"' => "\\\""
    case '\\' => "\\\\"
    case '\n' => "\\n"
    case '\r' => "\\r"
    case '\t' => "\\t"
    case '\0' => "\\0"
    case _ => [c]
  }

  /** The character an escape sequence `\e` stands for. */
  function UnescapeChar(e: char): Option<char> {
    match e
    case '"' => Some('"')
    case '\\' => Some('\\')
    case 'n' => Some('\n')
    case 'r' => Some('\r')
    case 't' => Some('\t')
    case '0' => Some('\0')
    case _ => None
  }

  /** The body of a string's `Debug` rendering, between the quotes. */
  function Escape(s: string): (r: string)
    ensures |r| >= |s|
    ensures '"' in s || '\\' in s || |r| > |s| ==> '\\' in r
  {
    if |s| == 0 then "" else EscapeChar(s[0]) + Escape(s[1..])
  }

  /** Reads back what `Escape` wrote; `None` on a dangling or unknown escape. */
  function Unescape(r: string): Option<string>
  {
    if |r| == 0 then Some("")
    else if r[0] != '\\' then
      match Unescape(r[1..])
      case Some(rest) => Some([r[0]] + rest)
      case None => None
    else if |r| == 1 then None
    else
      match (UnescapeChar(r[1]), Unescape(r[2..]))
      case (Some(c), Some(rest)) => Some([c] + rest)
      case _ => None
  }

  /** Each escape sequence reads back as the character it stands for. */
  lemma EscapeCharReadsBack(c: char)
    ensures |EscapeChar(c)| == 2 ==> UnescapeChar(EscapeChar(c)[1]) == Some(c)
  {
  }

  lemma {:induction false} UnescapeEscape(s: string)
    ensures Unescape(Escape(s)) == Some(s)
  {
    if |s| > 0 {
      UnescapeEscape(s[1..]);
      var e := EscapeChar(s[0]);
      var r := e + Escape(s[1..]);
      assert Escape(s) == r;
      if |e| == 2 {
        EscapeCharReadsBack(s[0]);
        assert r[0] == '\\' && r[1] == e[1] && r[2..] == Escape(s[1..]);
        assert Unescape(r) == Some([s[0]] + s[1..]);
      } else {
        assert r[0] == s[0] && r[1..] == Escape(s[1..]);
        assert Unescape(r) == Some([s[0]] + s[1..]);
      }
      assert [s[0]] + s[1..] == s;
    }
  }

  /** `format!("{:?}", target)` for an `Option<String>`. */
  function DebugOption(target: Option<string>): string {
    match target
    case None => "None"
    case Some(s) => "Some(\"" + Escape(s) + "\")"
  }

  /** Reads back what `DebugOption` wrote. */
  function ParseDebugOption(r: string): Option<Option<string>> {
    if r == "None" then Some(None)
    else if |r| >= 8 && r[..6] == "Some(\"" && r[|r| - 2..] == "\")" then
      match Unescape(r[6..|r| - 2])
      case Some(s) => Some(Some(s))
      case None => None
    else None
  }

  lemma DebugOptionRoundTrip(target: Option<string>)
    ensures ParseDebugOption(DebugOption(target)) == Some(target)
  {
    if target.Some? {
      var r := DebugOption(target);
      var e := Escape(target.value);
      assert r == "Some(\"" + e + "\")";
      assert r[..6] == "Some(\"" && r[6..|r| - 2] == e && r[|r| - 2..] == "\")";
      UnescapeEscape(target.value);
    }
  }

  /** `EventData::description`: the name of an adapter, the id of a service,
      the target of a search, the device of a discovered service. */
  function Description(e: EventData): (r: string)
    ensures e.AdapterStart? ==> r == e.name
    ensures e.ServiceStart? || e.ServiceStop? ==> r == e.id
    ensures e.UpnpSearch? ==> r == "upnp search " + DebugOption(e.target)
    ensures e.UpnpServiceDiscovered? ==> r == "upnp service discovered " + e.service.msearch.deviceId
  {
    match e
    case AdapterStart(name) => name
    case ServiceStart(id) => id
    case ServiceStop(id) => id
    case UpnpSearch(target) => "upnp search " + DebugOption(target)
    case UpnpServiceDiscovered(service) => "upnp service discovered " + service.msearch.deviceId
  }

  /** The description of a search names its target unambiguously: two searches
      with the same description search for the same target. */
  lemma SearchDescriptionNamesTarget(t: Option<string>, u: Option<string>)
    requires Description(UpnpSearch(t)) == Description(UpnpSearch(u))
    ensures t == u
  {
    var pre := "upnp search ";
    assert Description(UpnpSearch(t))[|pre|..] == DebugOption(t);
    assert Description(UpnpSearch(u))[|pre|..] == DebugOption(u);
    DebugOptionRoundTrip(t);
    DebugOptionRoundTrip(u);
  }

  /** The three cases of the source's own tests, and a search without a target. */
  lemma DescriptionExamples()
    ensures Description(AdapterStart("name")) == "name"
    ensures Description(ServiceStart("id")) == "id"
    ensures Description(ServiceStop("id")) == "id"
    ensures Description(UpnpSearch(None)) == "upnp search None"
  {
  }

  /** Text without quotes, backslashes or control characters is rendered as
      itself between the quotes. */
  lemma {:induction false} EscapePlain(s: string)
    requires forall i :: 0 <= i < |s| ==> s[i] !in "\"\\\n\r\t\0"
    ensures Escape(s) == s
  {
    if |s| > 0 {
      EscapePlain(s[1..]);
      assert s == [s[0]] + s[1..];
    }
  }
}
