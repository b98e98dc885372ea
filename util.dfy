/** The flattening XML reader used on UPnP device descriptions (src/util.rs).

    The reader walks the event stream of an XML document and builds a map
    from the slash-joined path of each element ("/root/device/modelName") to
    the concatenation of the text found directly at that path.  A path that is
    entered again after text was recorded at it (a repeated sibling element)
    is dropped for good: its value is removed and later text at it is
    discarded. */
module Util {
  import opened Common

  /** The events of the XML event reader that the flattening loop looks at.
      `StartElement` carries the element's local name (the name without its
      namespace prefix); `EndElement` carries the name as displayed, which is
      only ever used in an error message; `ReadError` is an `Err` from the
      reader, already rendered as text; `OtherEvent` stands for the document
      start and end, processing instructions, comments and whitespace. */
  datatype XmlEvent =
    | StartElement(name: string)
    | EndElement(name: string)
    | Characters(text: string)
    | CData(text: string)
    | ReadError(message: string)
    | OtherEvent
  {
    predicate IsText() { Characters? || CData? }
  }

  /** The three local variables of the loop: `values`, the set of keys of the
      `ignore` map (it only ever maps keys to `true`), and `key`. */
  datatype ParserState = ParserState(values: map<string, string>, ignore: set<string>, key: string)

  const Initial := ParserState(map[], {}, "")

  /** `values.entry(key).or_insert_with(String::new).push_str(x)`. */
  function AppendAt(values: map<string, string>, key: string, x: string): (r: map<string, string>)
    ensures r.Keys == values.Keys + {key}
    ensures r[key] == (if key in values then values[key] else "") + x
    ensures forall k :: k in values && k != key ==> r[k] == values[k]
  {
    values[key := (if key in values then values[key] else "") + x]
  }

  /** One turn of the event loop. */
  function Step(s: ParserState, e: XmlEvent): (r: Result<ParserState, string>)
    ensures r.Err? <==> e.ReadError? || (e.EndElement? && RFind(s.key, '/').None?)
    ensures r.Ok? ==> s.ignore <= r.value.ignore && r.value.values.Keys <= s.values.Keys + {s.key}
    ensures r.Ok? && e.StartElement? ==> r.value.key == s.key + "/" + e.name
    ensures r.Ok? && e.EndElement? ==> |r.value.key| < |s.key| && r.value.key == s.key[..|r.value.key|]
    ensures r.Ok? && !e.StartElement? ==> r.value.ignore == s.ignore
    ensures r.Ok? && !e.StartElement? && !e.EndElement? ==> r.value.key == s.key
  {
    match e
    case StartElement(name) =>
      var key := s.key + "/" + name;
      if key !in s.ignore && key in s.values then
        Ok(ParserState(s.values - {key}, s.ignore + {key}, key))
      else
        Ok(s.(key := key))
    case EndElement(name) =>
      (match RFind(s.key, '/')
       case Some(x) => Ok(s.(key := s.key[..x]))
       case None => Err("broken key " + s.key + " at ending element " + name))
    case Characters(x) =>
      if s.key in s.ignore then Ok(s) else Ok(s.(values := AppendAt(s.values, s.key, x)))
    case CData(x) =>
      if s.key in s.ignore then Ok(s) else Ok(s.(values := AppendAt(s.values, s.key, x)))
    case ReadError(m) => Err("parse error " + m)
    case OtherEvent => Ok(s)
  }

  /** The loop state after all of `events`, or the error that ended the loop. */
  function Run(events: seq<XmlEvent>): Result<ParserState, string>
    decreases |events|
  {
    if |events| == 0 then Ok(Initial)
    else
      match Run(events[..|events| - 1])
      case Err(m) => Err(m)
      case Ok(s) => Step(s, events[|events| - 1])
  }

  /** What `parse_simple_xml` returns for a document whose reader yields `events`. */
  function Flatten(events: seq<XmlEvent>): (r: Result<map<string, string>, string>)
    ensures r.Err? <==> Run(events).Err?
    ensures r.Ok? ==> r.value.Keys !! Run(events).value.ignore
    ensures events == [] ==> r == Ok(map[])
  {
    match Run(events)
    case Ok(s) => IgnoredHoldNoValue(events); Ok(s.values)
    case Err(m) => Err(m)
  }

  /** `parse_simple_xml`: the event loop, updating `values`, `ignore` and `key`
      in place and returning at the first error. */
  method ParseSimpleXml(events: seq<XmlEvent>) returns (r: Result<map<string, string>, string>)
    ensures r == Flatten(events)
  {
    var values: map<string, string> := map[];
    var ignore: set<string> := {};
    var key := "";
    var i := 0;
    while i < |events|
      invariant 0 <= i <= |events|
      invariant Run(events[..i]) == Ok(ParserState(values, ignore, key))
    {
      assert events[..i + 1][..i] == events[..i];
      assert Run(events[..i + 1]) == Step(ParserState(values, ignore, key), events[i]);
      match events[i] {
      case StartElement(name) =>
        key := key + "/" + name;
        if key !in ignore && key in values {
          ignore := ignore + {key};
          values := values - {key};
        }
      case EndElement(name) =>
        var x := RFind(key, '/');
        if x.None? {
          r := Err("broken key " + key + " at ending element " + name);
          ErrorIsFinal(events, i + 1);
          return;
        }
        key := key[..x.value];
      case Characters(x) =>
        if key !in ignore {
          values := AppendAt(values, key, x);
        }
      case CData(x) =>
        if key !in ignore {
          values := AppendAt(values, key, x);
        }
      case ReadError(m) =>
        r := Err("parse error " + m);
        ErrorIsFinal(events, i + 1);
        return;
      case OtherEvent =>
      }
      i := i + 1;
    }
    assert events[..|events|] == events;
    r := Ok(values);
  }

  /** Once the loop has failed, no later event changes the result. */
  lemma {:induction false} ErrorIsFinal(events: seq<XmlEvent>, n: nat)
    requires n <= |events| && Run(events[..n]).Err?
    ensures Run(events) == Run(events[..n])
    decreases |events| - n
  {
    if n < |events| {
      assert events[..n + 1][..n] == events[..n];
      ErrorIsFinal(events, n + 1);
    } else {
      assert events[..n] == events;
    }
  }

  // ---------------------------------------------------------------------------
  // A reference description of the result, independent of the loop.

  /** The names of the elements that are open after `events`: a start pushes,
      an end pops.  The end tag's own name is never consulted. */
  function OpenElements(events: seq<XmlEvent>): seq<string>
    decreases |events|
  {
    if |events| == 0 then []
    else
      var open := OpenElements(events[..|events| - 1]);
      match events[|events| - 1]
      case StartElement(name) => open + [name]
      case EndElement(_) => if |open| == 0 then [] else open[..|open| - 1]
      case _ => open
  }

  /** The path of a stack of open elements: `'/' + name` for each, outermost first. */
  function PathOf(open: seq<string>): string
    decreases |open|
  {
    if |open| == 0 then "" else PathOf(open[..|open| - 1]) + "/" + open[|open| - 1]
  }

  /** Element names never contain `/` (XML names cannot). */
  predicate WellNamed(events: seq<XmlEvent>) {
    forall i :: 0 <= i < |events| && events[i].StartElement? ==> '/' !in events[i].name
  }

  /** Some text event of `events` happened while the open path was `p`. */
  predicate HasTextAt(events: seq<XmlEvent>, p: string)
    decreases |events|
  {
    |events| > 0 &&
    var prefix := events[..|events| - 1];
    (HasTextAt(prefix, p) || (events[|events| - 1].IsText() && PathOf(OpenElements(prefix)) == p))
  }

  /** The in-order concatenation of the text of every text event that happened
      while the open path was `p`. */
  function TextAt(events: seq<XmlEvent>, p: string): string
    decreases |events|
  {
    if |events| == 0 then ""
    else
      var prefix := events[..|events| - 1];
      var e := events[|events| - 1];
      TextAt(prefix, p) + (if e.IsText() && PathOf(OpenElements(prefix)) == p then e.text else "")
  }

  /** Path `p` was entered again at a moment when text had already been
      recorded at it: the repeated-sibling case the reader gives up on. */
  predicate ReenteredAfterText(events: seq<XmlEvent>, p: string)
    decreases |events|
  {
    |events| > 0 &&
    var prefix := events[..|events| - 1];
    var e := events[|events| - 1];
    (ReenteredAfterText(prefix, p) ||
     (e.StartElement? && PathOf(OpenElements(prefix)) + "/" + e.name == p && HasTextAt(prefix, p)))
  }

  /** The event at `i` ends the loop with an error: a reader error, or an end
      tag when no element is open. */
  predicate FailsAt(events: seq<XmlEvent>, i: int)
    requires 0 <= i < |events|
  {
    events[i].ReadError? || (events[i].EndElement? && OpenElements(events[..i]) == [])
  }

  // ---------------------------------------------------------------------------
  // Lemmas

  lemma WellNamedPrefix(events: seq<XmlEvent>, n: nat)
    requires n <= |events| && WellNamed(events)
    ensures WellNamed(events[..n])
  {
    assert forall i :: 0 <= i < n ==> events[..n][i] == events[i];
  }

  lemma {:induction false} OpenNamesHaveNoSlash(events: seq<XmlEvent>)
    requires WellNamed(events)
    ensures forall k :: 0 <= k < |OpenElements(events)| ==> '/' !in OpenElements(events)[k]
    decreases |events|
  {
    if |events| > 0 {
      WellNamedPrefix(events, |events| - 1);
      OpenNamesHaveNoSlash(events[..|events| - 1]);
    }
  }

  /** The last `/` of `k + "/" + n` is the one just added when `n` has none. */
  lemma {:induction false} RFindLastSegment(k: string, n: string)
    requires '/' !in n
    ensures RFind(k + "/" + n, '/') == Some(|k|)
    decreases |n|
  {
    var s := k + "/" + n;
    if |n| > 0 {
      assert s[..|s| - 1] == k + "/" + n[..|n| - 1];
      assert s[|s| - 1] == n[|n| - 1];
      RFindLastSegment(k, n[..|n| - 1]);
    }
  }

  lemma PathOfPush(open: seq<string>, n: string)
    ensures PathOf(open + [n]) == PathOf(open) + "/" + n
  {
    assert (open + [n])[..|open|] == open;
  }

  /** Truncating the path of a non-empty stack at its last `/` gives the
      path of the stack without its innermost element. */
  lemma PopPath(open: seq<string>)
    requires |open| > 0 && '/' !in open[|open| - 1]
    ensures RFind(PathOf(open), '/') == Some(|PathOf(open[..|open| - 1])|)
    ensures PathOf(open)[..|PathOf(open[..|open| - 1])|] == PathOf(open[..|open| - 1])
  {
    var outer := PathOf(open[..|open| - 1]);
    RFindLastSegment(outer, open[|open| - 1]);
  }

  /** The current key is always the path of the open elements. */
  lemma {:induction false} KeyIsOpenPath(events: seq<XmlEvent>)
    requires WellNamed(events) && Run(events).Ok?
    ensures Run(events).value.key == PathOf(OpenElements(events))
    decreases |events|
  {
    if |events| > 0 {
      var prefix := events[..|events| - 1];
      WellNamedPrefix(events, |events| - 1);
      KeyIsOpenPath(prefix);
      var open := OpenElements(prefix);
      match events[|events| - 1]
      case StartElement(name) =>
        PathOfPush(open, name);
      case EndElement(_) =>
        if |open| > 0 {
          OpenNamesHaveNoSlash(prefix);
          PopPath(open);
        }
      case _ =>
    }
  }

  /** An element start followed by any end tag restores the key exactly. */
  lemma StartThenEndRestoresKey(s: ParserState, name: string, endName: string)
    requires '/' !in name
    ensures Step(s, StartElement(name)).Ok?
    ensures var t := Step(s, StartElement(name)).value;
            Step(t, EndElement(endName)) == Ok(t.(key := s.key))
  {
    RFindLastSegment(s.key, name);
    var t := Step(s, StartElement(name)).value;
    assert t.key[..|s.key|] == s.key;
  }

  /** With no earlier failure, an end tag as the last event fails exactly
      when no element is open. */
  lemma LastEndFailsIff(events: seq<XmlEvent>)
    requires WellNamed(events) && |events| > 0 && Run(events[..|events| - 1]).Ok?
    requires events[|events| - 1].EndElement?
    ensures Run(events).Err? <==> OpenElements(events[..|events| - 1]) == []
  {
    var prefix := events[..|events| - 1];
    WellNamedPrefix(events, |events| - 1);
    KeyIsOpenPath(prefix);
    var open := OpenElements(prefix);
    if |open| > 0 {
      OpenNamesHaveNoSlash(prefix);
      PopPath(open);
    }
  }

  /** With no earlier failure, the last event fails exactly when `FailsAt` says so. */
  lemma LastStepFailsIff(events: seq<XmlEvent>)
    requires WellNamed(events) && |events| > 0 && Run(events[..|events| - 1]).Ok?
    ensures Run(events).Err? <==> FailsAt(events, |events| - 1)
  {
    if events[|events| - 1].EndElement? {
      LastEndFailsIff(events);
    }
  }

  /** The loop fails exactly when a reader error arrives or an end tag
      arrives while no element is open. */
  lemma {:induction false} RunFailsIff(events: seq<XmlEvent>)
    requires WellNamed(events)
    ensures Run(events).Err? <==> exists i :: 0 <= i < |events| && FailsAt(events, i)
    decreases |events|
  {
    if |events| > 0 {
      var n := |events| - 1;
      var prefix := events[..n];
      WellNamedPrefix(events, n);
      RunFailsIff(prefix);
      if Run(prefix).Err? {
        var i :| 0 <= i < n && FailsAt(prefix, i);
        assert prefix[..i] == events[..i];
        assert FailsAt(events, i);
      } else {
        LastStepFailsIff(events);
        forall i | 0 <= i < n
          ensures !FailsAt(events, i)
        {
          assert prefix[..i] == events[..i];
          assert !FailsAt(prefix, i);
        }
      }
    }
  }

  /** Nothing is ever both ignored and holding a value. */
  lemma {:induction false} IgnoredHoldNoValue(events: seq<XmlEvent>)
    requires Run(events).Ok?
    ensures Run(events).value.ignore !! Run(events).value.values.Keys
    decreases |events|
  {
    if |events| > 0 {
      IgnoredHoldNoValue(events[..|events| - 1]);
    }
  }

  /** Once a path is ignored it stays ignored. */
  lemma {:induction false} IgnoreOnlyGrows(events: seq<XmlEvent>, n: nat)
    requires n <= |events| && Run(events).Ok?
    ensures Run(events[..n]).Ok?
    ensures Run(events[..n]).value.ignore <= Run(events).value.ignore
    decreases |events| - n
  {
    if n == |events| {
      assert events[..n] == events;
    } else {
      assert events[..n + 1][..n] == events[..n];
      IgnoreOnlyGrows(events, n + 1);
    }
  }

  lemma {:induction false} NoTextMeansEmpty(events: seq<XmlEvent>, p: string)
    requires !HasTextAt(events, p)
    ensures TextAt(events, p) == ""
    decreases |events|
  {
    if |events| > 0 {
      NoTextMeansEmpty(events[..|events| - 1], p);
    }
  }

  /** For a path that is not ignored, its value is the concatenation of all the
      text seen at it, and it has a value exactly when some text was seen at it. */
  lemma {:induction false} ValueIsTextAt(events: seq<XmlEvent>, p: string)
    requires WellNamed(events) && Run(events).Ok?
    requires p !in Run(events).value.ignore
    ensures p in Run(events).value.values <==> HasTextAt(events, p)
    ensures p in Run(events).value.values ==> Run(events).value.values[p] == TextAt(events, p)
    decreases |events|
  {
    if |events| > 0 {
      var prefix := events[..|events| - 1];
      WellNamedPrefix(events, |events| - 1);
      var st := Run(prefix).value;
      var e := events[|events| - 1];
      assert Run(events) == Step(st, e);
      var fin := Run(events).value;
      assert p !in st.ignore;
      ValueIsTextAt(prefix, p);
      KeyIsOpenPath(prefix);
      assert TextAt(events, p) == TextAt(prefix, p) + (if e.IsText() && st.key == p then e.text else "");
      if e.IsText() && st.key == p {
        assert fin.values == AppendAt(st.values, p, e.text);
        if p !in st.values {
          NoTextMeansEmpty(prefix, p);
        }
      } else if e.StartElement? {
        var k := st.key + "/" + e.name;
        if k !in st.ignore && k in st.values {
          assert fin.ignore == st.ignore + {k};
          assert fin.values == st.values - {k};
        } else {
          assert fin.values == st.values;
        }
      } else if e.IsText() {
        if st.key !in st.ignore {
          assert fin.values == AppendAt(st.values, st.key, e.text);
        }
      } else {
        assert fin.values == st.values;
      }
    }
  }

  /** A path is ignored exactly when it was re-entered after text had been
      recorded at it; re-entering a path that has no text yet is harmless. */
  lemma {:induction false} IgnoredIffReentered(events: seq<XmlEvent>, p: string)
    requires WellNamed(events) && Run(events).Ok?
    ensures p in Run(events).value.ignore <==> ReenteredAfterText(events, p)
    decreases |events|
  {
    if |events| > 0 {
      var prefix := events[..|events| - 1];
      WellNamedPrefix(events, |events| - 1);
      IgnoredIffReentered(prefix, p);
      KeyIsOpenPath(prefix);
      if p !in Run(prefix).value.ignore {
        ValueIsTextAt(prefix, p);
      }
    }
  }

  /** The meaning of `parse_simple_xml` on a document the reader accepts: the
      result has a key for each path that holds text and was never re-entered
      after holding text, and its value is all the text found at that path. */
  lemma FlattenMeaning(events: seq<XmlEvent>, p: string)
    requires WellNamed(events) && Flatten(events).Ok?
    ensures p in Flatten(events).value <==> HasTextAt(events, p) && !ReenteredAfterText(events, p)
    ensures p in Flatten(events).value ==> Flatten(events).value[p] == TextAt(events, p)
  {
    IgnoredIffReentered(events, p);
    IgnoredHoldNoValue(events);
    if p !in Run(events).value.ignore {
      ValueIsTextAt(events, p);
    }
  }

  lemma RunSnoc(events: seq<XmlEvent>, e: XmlEvent)
    ensures Run(events + [e]) == match Run(events) case Err(m) => Err(m) case Ok(s) => Step(s, e)
  {
    assert (events + [e])[..|events|] == events;
  }

  /** One more event applied to a run that has not failed. */
  lemma RunExtends(events: seq<XmlEvent>, e: XmlEvent, s: ParserState, t: ParserState)
    requires Run(events) == Ok(s) && Step(s, e) == Ok(t)
    ensures Run(events + [e]) == Ok(t)
  {
    RunSnoc(events, e);
  }

  /** Closing the innermost element of `open` goes back to the enclosing path. */
  lemma EndStep(s: ParserState, outer: string, name: string, endName: string)
    requires '/' !in name && s.key == outer + "/" + name
    ensures Step(s, EndElement(endName)) == Ok(s.(key := outer))
  {
    RFindLastSegment(outer, name);
    assert s.key[..|outer|] == outer;
  }

  /** A leaf element `<name>text</name>` read after `events`: its path gets the
      text when first seen, is dropped for good when seen again, and the key
      comes back to the enclosing path. */
  function Leaf(name: string, text: string): seq<XmlEvent> {
    [StartElement(name), Characters(text), EndElement(name)]
  }

  lemma LeafElement(events: seq<XmlEvent>, st: ParserState, name: string, text: string)
    requires Run(events) == Ok(st) && '/' !in name
    ensures var key := st.key + "/" + name;
      Run(events + Leaf(name, text))
      == Ok(if key in st.ignore then st
            else if key in st.values then ParserState(st.values - {key}, st.ignore + {key}, st.key)
            else st.(values := st.values[key := text]))
  {
    var key := st.key + "/" + name;
    var p1 := events + [StartElement(name)];
    var p2 := p1 + [Characters(text)];
    assert events + Leaf(name, text) == p2 + [EndElement(name)];
    var s1 := if key !in st.ignore && key in st.values
              then ParserState(st.values - {key}, st.ignore + {key}, key) else st.(key := key);
    RunExtends(events, StartElement(name), st, s1);
    var s2 := if key in s1.ignore then s1 else s1.(values := AppendAt(s1.values, key, text));
    RunExtends(p1, Characters(text), s1, s2);
    EndStep(s2, st.key, name, name);
    RunExtends(p2, EndElement(name), s2, s2.(key := st.key));
    assert "" + text == text;
  }

  /** The events of `<a><b>x</b><b>y</b><c>z</c></a>`. */
  function SiblingDocument(a: string, b: string, c: string, x: string, y: string, z: string): seq<XmlEvent> {
    [StartElement(a)] + Leaf(b, x) + Leaf(b, y) + Leaf(c, z) + [EndElement(a)]
  }

  /** Sibling paths differ when the sibling names do. */
  lemma SiblingPathsDiffer(a: string, b: string, c: string)
    requires b != c
    ensures "/" + a + "/" + b != "/" + a + "/" + c
  {
    var p := "/" + a + "/";
    assert (p + b)[|p|..] == b && (p + c)[|p|..] == c;
  }

  /** `<a><b>x</b><b>y</b><c>z</c></a>` flattens to `{"/a/c": "z"}` only:
      the repeated `b` is absent and the unique `c` keeps its text. */
  lemma RepeatedSiblingExample(a: string, b: string, c: string, x: string, y: string, z: string)
    requires '/' !in a && '/' !in b && '/' !in c && b != c
    ensures Flatten(SiblingDocument(a, b, c, x, y, z)) == Ok(map["/" + a + "/" + c := z])
  {
    var pa, pb, pc := "/" + a, "/" + a + "/" + b, "/" + a + "/" + c;
    assert pa + "/" + b == pb && pa + "/" + c == pc && "" + "/" + a == pa;
    var p1: seq<XmlEvent> := [StartElement(a)];
    var s1 := ParserState(map[], {}, pa);
    RunExtends([], StartElement(a), Initial, s1);
    assert [] + [StartElement(a)] == p1;
    var p2 := p1 + Leaf(b, x);
    var s2 := ParserState(map[pb := x], {}, pa);
    LeafElement(p1, s1, b, x);
    var p3 := p2 + Leaf(b, y);
    var s3 := ParserState(map[], {pb}, pa);
    LeafElement(p2, s2, b, y);
    assert map[pb := x] - {pb} == map[] && {} + {pb} == {pb};
    var p4 := p3 + Leaf(c, z);
    var s4 := ParserState(map[pc := z], {pb}, pa);
    LeafElement(p3, s3, c, z);
    SiblingPathsDiffer(a, b, c);
    EndStep(s4, "", a, a);
    RunExtends(p4, EndElement(a), s4, s4.(key := ""));
    assert p4 + [EndElement(a)] == SiblingDocument(a, b, c, x, y, z);
  }
}
