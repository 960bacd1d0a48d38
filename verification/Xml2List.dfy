/** The ClassAd XML decoder of lib/condorMonitor.py: the three expat handlers
    (start element, end element, character data), the four pieces of parser
    state they share, and `xml2list`, which finds the document header and
    feeds the rest of the text to expat.

    Expat itself is not modelled: it is the parameter `expat`, which maps the
    text handed to it to the events it delivers and to whether the text was
    well-formed. */
module Xml2List {
  import opened Wrappers
  import opened OrderedDict
  import opened ClassAd
  import opened IntText

  /** An expat callback: StartElementHandler, EndElementHandler or CharacterDataHandler. */
  datatype Event = Start(name: string, attrs: map<string, string>) | End(name: string) | Chars(text: string)

  /** What expat does with a text: the events it delivers before it stops, and
      whether it reached the end without a syntax error. */
  datatype ExpatOutput = ExpatOutput(events: seq<Event>, wellFormed: bool)

  /** `xml2list_intype`: None, "s", "i", "r", "b" or "un". */
  datatype ValueTag = NoTag | TagS | TagI | TagR | TagB | TagUn

  /** `xml2list_inattr`: the attribute being read, `{"name": ..., "val": ...}`. */
  datatype PendingAttr = PendingAttr(name: string, val: Value)

  /** The four globals. A `</c>` with no classad open appends None to `data`. */
  datatype DecoderState = DecoderState(
    data: seq<Option<Record>>,
    inClassAd: Option<Record>,
    inAttr: Option<PendingAttr>,
    inType: ValueTag)

  /** Why decoding stopped; the source re-raises each as a RuntimeError. */
  datatype DecodeError =
    | UnsupportedType(name: string)   // start of an element the grammar lacks
    | UnexpectedType(name: string)    // end of an element the grammar lacks
    | MissingName                     // <a> without its n attribute
    | NoOpenAttribute                 // a value element outside <a>
    | NoOpenClassAd                   // </a> outside <c>
    | BadInteger(text: string)        // <i> text that int() rejects
    | EmptyText                       // <b> text without a first character
    | NotAString                      // text appended to a non-string value
    | Malformed                       // expat's own syntax error

  /** The state `xml2list` starts from. */
  const Initial := DecoderState([], None, None, NoTag)

  predicate IsKnownElement(name: string) {
    name in {"classads", "c", "a", "s", "e", "i", "r", "b", "un"}
  }

  predicate IsTrueText(v: string) {
    v in {"T", "t", "1"}
  }

  predicate IsTrueChar(c: char) {
    c in {'T', 't', '1'}
  }

  /** `str.replace('\\"', '"')`: scans left to right, matches never overlap. */
  function Unescape(s: string): string {
    if |s| >= 2 && s[0] == '\\' && s[1] == '"' then "\"" + Unescape(s[2..])
    else if s == [] then []
    else [s[0]] + Unescape(s[1..])
  }

  /** Puts a backslash before every double quote. */
  function Escape(s: string): (r: string)
    ensures |r| >= |s|
    ensures r != [] ==> r[0] != '"'
  {
    if s == [] then []
    else if s[0] == '"' then "\\\"" + Escape(s[1..])
    else [s[0]] + Escape(s[1..])
  }

  lemma {:induction false} UnescapeEscape(s: string)
    ensures Unescape(Escape(s)) == s
  {
    if s != [] {
      UnescapeEscape(s[1..]);
      var rest := Escape(s[1..]);
      if s[0] == '"' {
        assert Escape(s)[2..] == rest;
      } else {
        assert Escape(s) == [s[0]] + rest;
        assert Escape(s)[1..] == rest;
        if s[0] == '\\' {
          assert rest == [] || rest[0] != '"';
        }
        assert s == [s[0]] + s[1..];
      }
    }
  }

  /** `xml2list_start_element`. */
  function StartStep(st: DecoderState, name: string, attrs: map<string, string>): (r: Result<DecoderState, DecodeError>)
    ensures !IsKnownElement(name) <==> r == Err(UnsupportedType(name))
    ensures r.Ok? ==> r.value.data == st.data
  {
    if name == "c" then Ok(st.(inClassAd := Some([])))
    else if name == "a" then
      if "n" in attrs then Ok(st.(inAttr := Some(PendingAttr(attrs["n"], Str(""))), inType := TagS))
      else Err(MissingName)
    else if name == "i" then Ok(st.(inType := TagI))
    else if name == "r" then Ok(st.(inType := TagR))
    else if name == "b" then
      if st.inAttr.None? then Err(NoOpenAttribute)
      else
        var v := if "v" in attrs then Bool(IsTrueText(attrs["v"])) else Undefined;
        Ok(st.(inType := TagB, inAttr := Some(st.inAttr.value.(val := v))))
    else if name == "un" then
      if st.inAttr.None? then Err(NoOpenAttribute)
      else Ok(st.(inType := TagUn, inAttr := Some(st.inAttr.value.(val := Undefined))))
    else if name in {"s", "e", "classads"} then Ok(st)
    else Err(UnsupportedType(name))
  }

  /** `xml2list_end_element`. */
  function EndStep(st: DecoderState, name: string): (r: Result<DecoderState, DecodeError>)
    ensures !IsKnownElement(name) <==> r == Err(UnexpectedType(name))
    ensures r.Ok? && name == "c" ==> r.value.data == st.data + [st.inClassAd] && r.value.inClassAd.None?
    ensures r.Ok? && name != "c" ==> r.value.data == st.data
  {
    if name == "c" then Ok(st.(data := st.data + [st.inClassAd], inClassAd := None))
    else if name == "a" then
      if st.inAttr.None? then Err(NoOpenAttribute)
      else if st.inClassAd.None? then Err(NoOpenClassAd)
      else Ok(st.(inClassAd := Some(Put(st.inClassAd.value, st.inAttr.value.name, st.inAttr.value.val)),
                  inAttr := None))
    else if name in {"i", "b", "un", "r"} then Ok(st.(inType := TagS))
    else if name in {"s", "e", "classads"} then Ok(st)
    else Err(UnexpectedType(name))
  }

  /** `xml2list_char_data`. */
  function CharStep(st: DecoderState, text: string): (r: Result<DecoderState, DecodeError>)
    ensures st.inAttr.None? ==> r == Ok(st)
    ensures r.Ok? ==> r.value.data == st.data && r.value.inClassAd == st.inClassAd && r.value.inType == st.inType
    ensures r.Ok? ==> r.value.inAttr.Some? == st.inAttr.Some?
  {
    if st.inAttr.None? then Ok(st)
    else
      var attr := st.inAttr.value;
      match st.inType
      case TagI =>
        (match ParseInt(text)
         case Some(n) => Ok(st.(inAttr := Some(attr.(val := Int(n)))))
         case None => Err(BadInteger(text)))
      case TagR => Ok(st.(inAttr := Some(attr.(val := Real(text)))))
      case TagB =>
        if attr.val != Undefined then Ok(st)
        else if text == [] then Err(EmptyText)
        else Ok(st.(inAttr := Some(attr.(val := Bool(IsTrueChar(text[0]))))))
      case TagUn => Ok(st)
      case _ =>
        (match attr.val
         case Str(s) => Ok(st.(inAttr := Some(attr.(val := Str(s + Unescape(text))))))
         case _ => Err(NotAString))
  }

  function Step(st: DecoderState, ev: Event): Result<DecoderState, DecodeError> {
    match ev
    case Start(name, attrs) => StartStep(st, name, attrs)
    case End(name) => EndStep(st, name)
    case Chars(text) => CharStep(st, text)
  }

  /** The handlers applied to the events in order, stopping at the first error. */
  function Run(st: DecoderState, evs: seq<Event>): Result<DecoderState, DecodeError>
    decreases |evs|
  {
    if evs == [] then Ok(st)
    else match Step(st, evs[0])
      case Err(e) => Err(e)
      case Ok(st') => Run(st', evs[1..])
  }

  function Then(r: Result<DecoderState, DecodeError>, evs: seq<Event>): Result<DecoderState, DecodeError> {
    match r
    case Err(e) => Err(e)
    case Ok(st) => Run(st, evs)
  }

  lemma {:induction false} RunAppend(st: DecoderState, a: seq<Event>, b: seq<Event>)
    ensures Run(st, a + b) == Then(Run(st, a), b)
    decreases |a|
  {
    if a == [] {
      assert a + b == b;
    } else {
      assert (a + b)[0] == a[0];
      assert (a + b)[1..] == a[1..] + b;
      match Step(st, a[0]) {
        case Err(e) =>
          assert Run(st, a + b) == Err(e);
        case Ok(s1) =>
          RunAppend(s1, a[1..], b);
          assert Run(st, a + b) == Run(s1, a[1..] + b);
      }
    }
  }

  lemma RunOne(st: DecoderState, e: Event)
    ensures Run(st, [e]) == Step(st, e)
  {
    assert [e][0] == e;
    assert [e][1..] == [];
  }

  lemma RunThen(st: DecoderState, a: seq<Event>, b: seq<Event>, mid: DecoderState)
    requires Run(st, a) == Ok(mid)
    ensures Run(st, a + b) == Run(mid, b)
  {
    RunAppend(st, a, b);
  }

  /** A start or end tag whose name the grammar does not know. */
  predicate IsUnknownTag(ev: Event) {
    (ev.Start? && !IsKnownElement(ev.name)) || (ev.End? && !IsKnownElement(ev.name))
  }

  /** Any element outside the grammar makes the whole decoding fail. */
  lemma {:induction false} UnknownElementFails(st: DecoderState, evs: seq<Event>, k: nat)
    requires k < |evs| && IsUnknownTag(evs[k])
    ensures Run(st, evs).Err?
    decreases k
  {
    if k == 0 {
    } else if Step(st, evs[0]).Ok? {
      UnknownElementFails(Step(st, evs[0]).value, evs[1..], k - 1);
    }
  }

  predicate IsHeader(line: string) {
    |line| >= 5 && line[..5] == "<?xml"
  }

  /** Index of the first line that starts with `<?xml`. */
  function FindHeader(lines: seq<string>): (r: Option<nat>)
    ensures r.None? <==> forall j :: 0 <= j < |lines| ==> !IsHeader(lines[j])
    ensures r.Some? ==> r.value < |lines| && IsHeader(lines[r.value])
    ensures r.Some? ==> forall j :: 0 <= j < r.value ==> !IsHeader(lines[j])
  {
    if lines == [] then None
    else if IsHeader(lines[0]) then Some(0)
    else match FindHeader(lines[1..])
      case None => None
      case Some(i) => Some(i + 1)
  }

  /** `" ".join(lines)`. */
  function JoinLines(lines: seq<string>): string {
    if lines == [] then ""
    else if |lines| == 1 then lines[0]
    else lines[0] + " " + JoinLines(lines[1..])
  }

  /** What `xml2list` returns or raises. */
  function Xml2ListSpec(xmlData: seq<string>, expat: string -> ExpatOutput): Result<seq<Option<Record>>, DecodeError> {
    match FindHeader(xmlData)
    case None => Ok([])
    case Some(i) =>
      var out := expat(JoinLines(xmlData[i..]));
      match Run(Initial, out.events)
      case Err(e) => Err(e)
      case Ok(st) => if out.wellFormed then Ok(st.data) else Err(Malformed)
  }

  /** Output without a document header is the empty list, whatever expat would say. */
  lemma NoHeaderNoRecords(xmlData: seq<string>, expat: string -> ExpatOutput)
    requires forall j :: 0 <= j < |xmlData| ==> !IsHeader(xmlData[j])
    ensures Xml2ListSpec(xmlData, expat) == Ok([])
  {
  }

  /** Every classad read so far, and the one being read, has distinct attribute names. */
  ghost predicate DistinctNames(st: DecoderState) {
    (st.inClassAd.Some? ==> UniqueKeys(st.inClassAd.value))
    && forall i :: 0 <= i < |st.data| && st.data[i].Some? ==> UniqueKeys(st.data[i].value)
  }

  lemma StepKeepsDistinct(st: DecoderState, ev: Event)
    requires DistinctNames(st) && Step(st, ev).Ok?
    ensures DistinctNames(Step(st, ev).value)
  {
    if ev.End? && ev.name == "c" {
      var st' := Step(st, ev).value;
      assert forall i :: 0 <= i < |st.data| ==> st'.data[i] == st.data[i];
    }
  }

  lemma {:induction false} RunKeepsDistinct(st: DecoderState, evs: seq<Event>)
    requires DistinctNames(st) && Run(st, evs).Ok?
    ensures DistinctNames(Run(st, evs).value)
    decreases |evs|
  {
    if evs != [] {
      StepKeepsDistinct(st, evs[0]);
      RunKeepsDistinct(Step(st, evs[0]).value, evs[1..]);
    }
  }

  /** Each decoded classad is a dict: a repeated `<a n="...">` overwrites, it does not add. */
  lemma DecodedNamesDistinct(xmlData: seq<string>, expat: string -> ExpatOutput)
    requires Xml2ListSpec(xmlData, expat).Ok?
    ensures forall i :: 0 <= i < |Xml2ListSpec(xmlData, expat).value| && Xml2ListSpec(xmlData, expat).value[i].Some?
              ==> UniqueKeys(Xml2ListSpec(xmlData, expat).value[i].value)
  {
    match FindHeader(xmlData)
    case None =>
    case Some(h) =>
      RunKeepsDistinct(Initial, expat(JoinLines(xmlData[h..])).events);
  }

  /** The parser globals and the three handlers that update them. */
  class Parser {
    var data: seq<Option<Record>>
    var inClassAd: Option<Record>
    var inAttr: Option<PendingAttr>
    var inType: ValueTag

    function State(): DecoderState
      reads this
    {
      DecoderState(data, inClassAd, inAttr, inType)
    }

    constructor ()
      ensures State() == Initial
    {
      data, inClassAd, inAttr, inType := [], None, None, NoTag;
    }

    method StartElement(name: string, attrs: map<string, string>) returns (err: Option<DecodeError>)
      modifies this
      ensures match StartStep(old(State()), name, attrs)
              case Ok(st) => err.None? && State() == st
              case Err(e) => err == Some(e)
    {
      err := None;
      if name == "c" {
        inClassAd := Some([]);
      } else if name == "a" {
        if "n" in attrs {
          inAttr := Some(PendingAttr(attrs["n"], Str("")));
          inType := TagS;
        } else {
          err := Some(MissingName);
        }
      } else if name == "i" {
        inType := TagI;
      } else if name == "r" {
        inType := TagR;
      } else if name == "b" {
        inType := TagB;
        if inAttr.None? {
          err := Some(NoOpenAttribute);
        } else if "v" in attrs {
          inAttr := Some(inAttr.value.(val := Bool(IsTrueText(attrs["v"]))));
        } else {
          inAttr := Some(inAttr.value.(val := Undefined));
        }
      } else if name == "un" {
        inType := TagUn;
        if inAttr.None? {
          err := Some(NoOpenAttribute);
        } else {
          inAttr := Some(inAttr.value.(val := Undefined));
        }
      } else if name in {"s", "e", "classads"} {
      } else {
        err := Some(UnsupportedType(name));
      }
    }

    method EndElement(name: string) returns (err: Option<DecodeError>)
      modifies this
      ensures match EndStep(old(State()), name)
              case Ok(st) => err.None? && State() == st
              case Err(e) => err == Some(e)
    {
      err := None;
      if name == "c" {
        data := data + [inClassAd];
        inClassAd := None;
      } else if name == "a" {
        if inAttr.None? {
          err := Some(NoOpenAttribute);
        } else if inClassAd.None? {
          err := Some(NoOpenClassAd);
        } else {
          inClassAd := Some(Put(inClassAd.value, inAttr.value.name, inAttr.value.val));
          inAttr := None;
        }
      } else if name in {"i", "b", "un", "r"} {
        inType := TagS;
      } else if name in {"s", "e", "classads"} {
      } else {
        err := Some(UnexpectedType(name));
      }
    }

    method CharData(text: string) returns (err: Option<DecodeError>)
      modifies this
      ensures match CharStep(old(State()), text)
              case Ok(st) => err.None? && State() == st
              case Err(e) => err == Some(e)
    {
      err := None;
      if inAttr.None? {
        return;
      }
      var attr := inAttr.value;
      if inType == TagI {
        var n := ParseInt(text);
        if n.None? {
          err := Some(BadInteger(text));
        } else {
          inAttr := Some(attr.(val := Int(n.value)));
        }
      } else if inType == TagR {
        inAttr := Some(attr.(val := Real(text)));
      } else if inType == TagB {
        if attr.val != Undefined {
        } else if text == [] {
          err := Some(EmptyText);
        } else {
          inAttr := Some(attr.(val := Bool(IsTrueChar(text[0]))));
        }
      } else if inType == TagUn {
      } else if attr.val.Str? {
        inAttr := Some(attr.(val := Str(attr.val.s + Unescape(text))));
      } else {
        err := Some(NotAString);
      }
    }
  }

  /** `xml2list`: banner lines before the header are skipped; no header, no records. */
  method Xml2List(xmlData: seq<string>, expat: string -> ExpatOutput) returns (r: Result<seq<Option<Record>>, DecodeError>)
    ensures r == Xml2ListSpec(xmlData, expat)
  {
    var p := new Parser();
    var foundXml := -1;
    var line := 0;
    while line < |xmlData|
      invariant 0 <= line <= |xmlData|
      invariant forall j :: 0 <= j < line ==> !IsHeader(xmlData[j])
      invariant foundXml == -1
    {
      if IsHeader(xmlData[line]) {
        foundXml := line;
        break;
      }
      line := line + 1;
    }
    if foundXml < 0 {
      return Ok([]);
    }
    assert FindHeader(xmlData) == Some(foundXml as nat);
    var out := expat(JoinLines(xmlData[foundXml..]));
    var evs := out.events;
    var i := 0;
    while i < |evs|
      invariant 0 <= i <= |evs|
      invariant Run(Initial, evs) == Run(p.State(), evs[i..])
    {
      var err;
      match evs[i] {
        case Start(name, attrs) => err := p.StartElement(name, attrs);
        case End(name) => err := p.EndElement(name);
        case Chars(text) => err := p.CharData(text);
      }
      if err.Some? {
        return Err(err.value);
      }
      i := i + 1;
    }
    if !out.wellFormed {
      return Err(Malformed);
    }
    r := Ok(p.data);
  }

  // ----- Decoding what a ClassAd writer produces -----

  /** Values a writer can put in a document: a real always has text. */
  predicate Encodable(v: Value) {
    !(v.Real? && v.text == [])
  }

  /** Text events as expat delivers them: no event for empty text. */
  function TextEvents(t: string): seq<Event> {
    if t == [] then [] else [Chars(t)]
  }

  /** The elements inside `<a n=...>` for a value. */
  function EncodeValue(v: Value): seq<Event> {
    match v
    case Str(s) => [Start("s", map[])] + TextEvents(Escape(s)) + [End("s")]
    case Int(i) => [Start("i", map[]), Chars(ShowInt(i)), End("i")]
    case Real(t) => [Start("r", map[])] + TextEvents(t) + [End("r")]
    case Bool(b) => [Start("b", map["v" := if b then "t" else "f"]), End("b")]
    case Undefined => [Start("un", map[]), End("un")]
  }

  function EncodeAttr(name: string, v: Value): seq<Event> {
    [Start("a", map["n" := name])] + EncodeValue(v) + [End("a")]
  }

  function EncodeAttrs(ps: seq<(string, Value)>): seq<Event> {
    if ps == [] then [] else EncodeAttrs(ps[..|ps| - 1]) + EncodeAttr(ps[|ps| - 1].0, ps[|ps| - 1].1)
  }

  function EncodeAd(ps: seq<(string, Value)>): seq<Event> {
    [Start("c", map[])] + EncodeAttrs(ps) + [End("c")]
  }

  function EncodeAds(ads: seq<seq<(string, Value)>>): seq<Event> {
    if ads == [] then [] else EncodeAds(ads[..|ads| - 1]) + EncodeAd(ads[|ads| - 1])
  }

  /** A `<classads>` document holding the given classads, attributes in order. */
  function EncodeDocument(ads: seq<seq<(string, Value)>>): seq<Event> {
    [Start("classads", map[])] + EncodeAds(ads) + [End("classads")]
  }

  /** What decoding each classad should give: its attributes, the last of a repeated name winning. */
  function Decoded(ads: seq<seq<(string, Value)>>): (r: seq<Option<Record>>)
    ensures |r| == |ads|
  {
    seq(|ads|, i requires 0 <= i < |ads| => Some(FromPairs(ads[i])))
  }

  /** The text of `<s>` arrives in one piece or in several; the pieces are unescaped one by one and joined. */
  function UnescapeChunks(chunks: seq<string>): string {
    if chunks == [] then "" else UnescapeChunks(chunks[..|chunks| - 1]) + Unescape(chunks[|chunks| - 1])
  }

  function CharEvents(chunks: seq<string>): seq<Event> {
    if chunks == [] then [] else CharEvents(chunks[..|chunks| - 1]) + [Chars(chunks[|chunks| - 1])]
  }

  lemma RunStep(st: DecoderState, e: Event, rest: seq<Event>, mid: DecoderState)
    requires Step(st, e) == Ok(mid)
    ensures Run(st, [e] + rest) == Run(mid, rest)
  {
    assert ([e] + rest)[0] == e;
    assert ([e] + rest)[1..] == rest;
  }

  /** Inside `<s>`, every piece of text is unescaped and appended to the string read so far. */
  lemma {:induction false} StringChunks(st: DecoderState, prefix: string, chunks: seq<string>)
    requires st.inAttr.Some? && st.inAttr.value.val == Str(prefix)
    requires st.inType == TagS || st.inType == NoTag
    ensures Run(st, CharEvents(chunks)) == Ok(st.(inAttr := Some(st.inAttr.value.(val := Str(prefix + UnescapeChunks(chunks))))))
  {
    if chunks == [] {
      assert prefix + "" == prefix;
      assert st.inAttr.value.(val := Str(prefix)) == st.inAttr.value;
    } else {
      var init, last := chunks[..|chunks| - 1], chunks[|chunks| - 1];
      StringChunks(st, prefix, init);
      var mid := st.(inAttr := Some(st.inAttr.value.(val := Str(prefix + UnescapeChunks(init)))));
      RunThen(st, CharEvents(init), [Chars(last)], mid);
      RunOne(mid, Chars(last));
      assert CharStep(mid, last) == Ok(mid.(inAttr := Some(mid.inAttr.value.(val := Str(prefix + UnescapeChunks(init) + Unescape(last))))));
      assert prefix + UnescapeChunks(init) + Unescape(last) == prefix + UnescapeChunks(chunks);
    }
  }

  /** `<a n="N"><s>t1 t2 ...</s></a>`, or the same with `<e>`, stores under N the unescaped
      pieces, concatenated. */
  lemma StringAttribute(st: DecoderState, name: string, tag: string, chunks: seq<string>)
    requires st.inClassAd.Some? && tag in {"s", "e"}
    ensures Run(st, [Start("a", map["n" := name]), Start(tag, map[])] + CharEvents(chunks) + [End(tag), End("a")])
         == Ok(st.(inClassAd := Some(Put(st.inClassAd.value, name, Str(UnescapeChunks(chunks)))), inAttr := None, inType := TagS))
  {
    var s1 := st.(inAttr := Some(PendingAttr(name, Str(""))), inType := TagS);
    var s2 := s1.(inAttr := Some(PendingAttr(name, Str(UnescapeChunks(chunks)))));
    var s3 := st.(inClassAd := Some(Put(st.inClassAd.value, name, Str(UnescapeChunks(chunks)))), inAttr := None, inType := TagS);
    var text, tail := CharEvents(chunks), [End(tag), End("a")];
    StringChunks(s1, "", chunks);
    assert "" + UnescapeChunks(chunks) == UnescapeChunks(chunks);
    RunThen(s1, text, tail, s2);
    RunStep(s2, End(tag), [End("a")], s2);
    RunOne(s2, End("a"));
    assert Run(s1, text + tail) == Ok(s3);
    RunStep(s1, Start(tag, map[]), text + tail, s1);
    RunStep(st, Start("a", map["n" := name]), [Start(tag, map[])] + (text + tail), s1);
    assert [Start("a", map["n" := name]), Start(tag, map[])] + text + tail
        == [Start("a", map["n" := name])] + ([Start(tag, map[])] + (text + tail));
  }

  /** The pending value ignores text: under `<un>`, and under `<b>` once the value is known. */
  predicate IgnoresText(st: DecoderState) {
    st.inAttr.Some? && (st.inType == TagUn || (st.inType == TagB && st.inAttr.value.val != Undefined))
  }

  lemma {:induction false} IgnoredChunks(st: DecoderState, chunks: seq<string>)
    requires IgnoresText(st)
    ensures Run(st, CharEvents(chunks)) == Ok(st)
  {
    if chunks != [] {
      var init := chunks[..|chunks| - 1];
      IgnoredChunks(st, init);
      RunThen(st, CharEvents(init), [Chars(chunks[|chunks| - 1])], st);
      RunOne(st, Chars(chunks[|chunks| - 1]));
    }
  }

  /** `<a n="N"><b v="V">...</b></a>` stores under N true iff V is T, t or 1; any text inside is ignored. */
  lemma BoolFromAttribute(st: DecoderState, name: string, attrs: map<string, string>, chunks: seq<string>)
    requires st.inClassAd.Some? && "v" in attrs
    ensures Run(st, [Start("a", map["n" := name]), Start("b", attrs)] + CharEvents(chunks) + [End("b"), End("a")])
         == Ok(st.(inClassAd := Some(Put(st.inClassAd.value, name, Bool(attrs["v"] in {"T", "t", "1"}))),
                   inAttr := None, inType := TagS))
  {
    var b := attrs["v"] in {"T", "t", "1"};
    var s1 := st.(inAttr := Some(PendingAttr(name, Str(""))), inType := TagS);
    var s2 := s1.(inType := TagB, inAttr := Some(PendingAttr(name, Bool(b))));
    var s3 := s2.(inType := TagS);
    var text, tail := CharEvents(chunks), [End("b"), End("a")];
    IgnoredChunks(s2, chunks);
    RunThen(s2, text, tail, s2);
    RunStep(s2, End("b"), [End("a")], s3);
    RunOne(s3, End("a"));
    RunStep(s1, Start("b", attrs), text + tail, s2);
    RunStep(st, Start("a", map["n" := name]), [Start("b", attrs)] + (text + tail), s1);
    assert [Start("a", map["n" := name]), Start("b", attrs)] + text + tail
        == [Start("a", map["n" := name])] + ([Start("b", attrs)] + (text + tail));
  }

  /** `<a n="N"><un>...</un></a>` stores None under N, whatever text the element holds. */
  lemma UndefinedAttribute(st: DecoderState, name: string, chunks: seq<string>)
    requires st.inClassAd.Some?
    ensures Run(st, [Start("a", map["n" := name]), Start("un", map[])] + CharEvents(chunks) + [End("un"), End("a")])
         == Ok(st.(inClassAd := Some(Put(st.inClassAd.value, name, Undefined)), inAttr := None, inType := TagS))
  {
    var s1 := st.(inAttr := Some(PendingAttr(name, Str(""))), inType := TagS);
    var s2 := s1.(inType := TagUn, inAttr := Some(PendingAttr(name, Undefined)));
    var s3 := s2.(inType := TagS);
    var text, tail := CharEvents(chunks), [End("un"), End("a")];
    IgnoredChunks(s2, chunks);
    RunThen(s2, text, tail, s2);
    RunStep(s2, End("un"), [End("a")], s3);
    RunOne(s3, End("a"));
    RunStep(s1, Start("un", map[]), text + tail, s2);
    RunStep(st, Start("a", map["n" := name]), [Start("un", map[])] + (text + tail), s1);
    assert [Start("a", map["n" := name]), Start("un", map[])] + text + tail
        == [Start("a", map["n" := name])] + ([Start("un", map[])] + (text + tail));
  }

  /** `<a n="N"><b>text</b></a>`: the first character of the text decides the boolean. */
  lemma BoolFromText(st: DecoderState, name: string, text: string)
    requires st.inClassAd.Some? && text != []
    ensures Run(st, [Start("a", map["n" := name]), Start("b", map[]), Chars(text), End("b"), End("a")])
         == Ok(st.(inClassAd := Some(Put(st.inClassAd.value, name, Bool(IsTrueChar(text[0])))), inAttr := None, inType := TagS))
  {
    var s1 := st.(inAttr := Some(PendingAttr(name, Str(""))), inType := TagS);
    var s2 := s1.(inAttr := Some(PendingAttr(name, Undefined)), inType := TagB);
    var s3 := s2.(inAttr := Some(PendingAttr(name, Bool(IsTrueChar(text[0])))));
    var s4 := s3.(inType := TagS);
    var s5 := st.(inClassAd := Some(Put(st.inClassAd.value, name, Bool(IsTrueChar(text[0])))), inAttr := None, inType := TagS);
    var evs := [Start("a", map["n" := name]), Start("b", map[]), Chars(text), End("b"), End("a")];
    assert evs == [evs[0]] + ([evs[1]] + ([evs[2]] + ([evs[3]] + [evs[4]])));
    RunStep(st, evs[0], [evs[1]] + ([evs[2]] + ([evs[3]] + [evs[4]])), s1);
    RunStep(s1, evs[1], [evs[2]] + ([evs[3]] + [evs[4]]), s2);
    RunStep(s2, evs[2], [evs[3]] + [evs[4]], s3);
    RunStep(s3, evs[3], [evs[4]], s4);
    RunOne(s4, evs[4]);
    assert EndStep(s4, "a") == Ok(s5);
  }

  /** Inside a fresh `<a>`, the elements the writer emits for a value leave exactly that value pending. */
  lemma ValueRoundTrip(s1: DecoderState, name: string, v: Value)
    requires s1.inAttr == Some(PendingAttr(name, Str(""))) && s1.inType == TagS && Encodable(v)
    ensures Run(s1, EncodeValue(v)) == Ok(s1.(inAttr := Some(PendingAttr(name, v))))
  {
    match v {
      case Str(s) => StrValue(s1, name, s);
      case Int(i) => IntValue(s1, name, i);
      case Real(t) => RealValue(s1, name, t);
      case Bool(b) => BoolValue(s1, name, b);
      case Undefined => UndefinedValue(s1, name);
    }
  }

  lemma StrValue(s1: DecoderState, name: string, s: string)
    requires s1.inAttr == Some(PendingAttr(name, Str(""))) && s1.inType == TagS
    ensures Run(s1, EncodeValue(Str(s))) == Ok(s1.(inAttr := Some(PendingAttr(name, Str(s)))))
  {
    var s2 := s1.(inAttr := Some(PendingAttr(name, Str(s))));
    var body := TextEvents(Escape(s));
    assert EncodeValue(Str(s)) == [Start("s", map[])] + (body + [End("s")]);
    assert Step(s1, Start("s", map[])) == Ok(s1);
    RunStep(s1, Start("s", map[]), body + [End("s")], s1);
    if s == [] {
      assert body + [End("s")] == [End("s")];
      RunOne(s1, End("s"));
    } else {
      UnescapeEscape(s);
      assert "" + Unescape(Escape(s)) == s;
      assert CharStep(s1, Escape(s)) == Ok(s2);
      assert body + [End("s")] == [Chars(Escape(s))] + [End("s")];
      RunStep(s1, Chars(Escape(s)), [End("s")], s2);
      RunOne(s2, End("s"));
    }
  }

  lemma IntValue(s1: DecoderState, name: string, i: int)
    requires s1.inAttr == Some(PendingAttr(name, Str(""))) && s1.inType == TagS
    ensures Run(s1, EncodeValue(Int(i))) == Ok(s1.(inAttr := Some(PendingAttr(name, Int(i)))))
  {
    var sI := s1.(inType := TagI);
    var sV := sI.(inAttr := Some(PendingAttr(name, Int(i))));
    assert EncodeValue(Int(i)) == [Start("i", map[])] + ([Chars(ShowInt(i))] + [End("i")]);
    IntChars(sI, i);
    RunStep(s1, Start("i", map[]), [Chars(ShowInt(i))] + [End("i")], sI);
    RunStep(sI, Chars(ShowInt(i)), [End("i")], sV);
    RunOne(sV, End("i"));
  }

  /** Inside `<i>`, the text `str(i)` sets the pending value to `i`. */
  lemma IntChars(sI: DecoderState, i: int)
    requires sI.inType == TagI && sI.inAttr.Some?
    ensures CharStep(sI, ShowInt(i)) == Ok(sI.(inAttr := Some(sI.inAttr.value.(val := Int(i)))))
  {
    ParseShowInt(i);
  }

  lemma RealValue(s1: DecoderState, name: string, t: string)
    requires s1.inAttr == Some(PendingAttr(name, Str(""))) && s1.inType == TagS && t != []
    ensures Run(s1, EncodeValue(Real(t))) == Ok(s1.(inAttr := Some(PendingAttr(name, Real(t)))))
  {
    var sR := s1.(inType := TagR);
    var sV := sR.(inAttr := Some(PendingAttr(name, Real(t))));
    assert EncodeValue(Real(t)) == [Start("r", map[])] + ([Chars(t)] + [End("r")]);
    RunStep(s1, Start("r", map[]), [Chars(t)] + [End("r")], sR);
    RunStep(sR, Chars(t), [End("r")], sV);
    RunOne(sV, End("r"));
  }

  lemma BoolValue(s1: DecoderState, name: string, b: bool)
    requires s1.inAttr == Some(PendingAttr(name, Str(""))) && s1.inType == TagS
    ensures Run(s1, EncodeValue(Bool(b))) == Ok(s1.(inAttr := Some(PendingAttr(name, Bool(b)))))
  {
    var attrs := map["v" := if b then "t" else "f"];
    assert IsTrueText(attrs["v"]) == b;
    var sB := s1.(inType := TagB, inAttr := Some(PendingAttr(name, Bool(b))));
    assert EncodeValue(Bool(b)) == [Start("b", attrs)] + [End("b")];
    RunStep(s1, Start("b", attrs), [End("b")], sB);
    RunOne(sB, End("b"));
  }

  lemma UndefinedValue(s1: DecoderState, name: string)
    requires s1.inAttr == Some(PendingAttr(name, Str(""))) && s1.inType == TagS
    ensures Run(s1, EncodeValue(Undefined)) == Ok(s1.(inAttr := Some(PendingAttr(name, Undefined))))
  {
    var sU := s1.(inType := TagUn, inAttr := Some(PendingAttr(name, Undefined)));
    assert EncodeValue(Undefined) == [Start("un", map[])] + [End("un")];
    RunStep(s1, Start("un", map[]), [End("un")], sU);
    RunOne(sU, End("un"));
  }

  /** One attribute written by the writer is read back into the open classad. */
  lemma AttrRoundTrip(st: DecoderState, name: string, v: Value)
    requires st.inClassAd.Some? && Encodable(v)
    ensures Run(st, EncodeAttr(name, v))
         == Ok(st.(inClassAd := Some(Put(st.inClassAd.value, name, v)), inAttr := None, inType := TagS))
  {
    var s1 := st.(inAttr := Some(PendingAttr(name, Str(""))), inType := TagS);
    var s2 := s1.(inAttr := Some(PendingAttr(name, v)));
    var a := Start("a", map["n" := name]);
    assert EncodeAttr(name, v) == [a] + (EncodeValue(v) + [End("a")]);
    RunStep(st, a, EncodeValue(v) + [End("a")], s1);
    ValueRoundTrip(s1, name, v);
    RunThen(s1, EncodeValue(v), [End("a")], s2);
    RunOne(s2, End("a"));
    assert EndStep(s2, "a") == Ok(st.(inClassAd := Some(Put(st.inClassAd.value, name, v)), inAttr := None, inType := TagS));
  }

  lemma {:induction false} AttrsRoundTrip(st: DecoderState, ps: seq<(string, Value)>)
    requires st.inClassAd.Some? && st.inAttr.None?
    requires forall i :: 0 <= i < |ps| ==> Encodable(ps[i].1)
    ensures Run(st, EncodeAttrs(ps)).Ok?
    ensures var st' := Run(st, EncodeAttrs(ps)).value;
            st'.data == st.data && st'.inAttr.None? && st'.inClassAd == Some(PutAll(st.inClassAd.value, ps))
  {
    if ps != [] {
      var init, last := ps[..|ps| - 1], ps[|ps| - 1];
      AttrsRoundTrip(st, init);
      var mid := Run(st, EncodeAttrs(init)).value;
      RunThen(st, EncodeAttrs(init), EncodeAttr(last.0, last.1), mid);
      AttrRoundTrip(mid, last.0, last.1);
    }
  }

  lemma DecodedSnoc(ads: seq<seq<(string, Value)>>)
    requires ads != []
    ensures Decoded(ads) == Decoded(ads[..|ads| - 1]) + [Some(FromPairs(ads[|ads| - 1]))]
  {
  }

  /** One classad written by the writer is appended, complete, to the decoded list. */
  lemma AdRoundTrip(s1: DecoderState, ad: seq<(string, Value)>)
    requires s1.inClassAd.None? && s1.inAttr.None?
    requires forall i :: 0 <= i < |ad| ==> Encodable(ad[i].1)
    ensures Run(s1, EncodeAd(ad)).Ok?
    ensures var st' := Run(s1, EncodeAd(ad)).value;
            st'.data == s1.data + [Some(FromPairs(ad))] && st'.inAttr.None? && st'.inClassAd.None?
  {
    var s2 := s1.(inClassAd := Some([]));
    AttrsRoundTrip(s2, ad);
    var s3 := Run(s2, EncodeAttrs(ad)).value;
    var s4 := s3.(data := s3.data + [s3.inClassAd], inClassAd := None);
    RunThen(s2, EncodeAttrs(ad), [End("c")], s3);
    RunOne(s3, End("c"));
    assert EncodeAd(ad) == [Start("c", map[])] + (EncodeAttrs(ad) + [End("c")]);
    RunStep(s1, Start("c", map[]), EncodeAttrs(ad) + [End("c")], s2);
    assert Run(s1, EncodeAd(ad)) == Ok(s4);
  }

  lemma {:induction false} AdsRoundTrip(st: DecoderState, ads: seq<seq<(string, Value)>>)
    requires st.inClassAd.None? && st.inAttr.None?
    requires forall a, i :: 0 <= a < |ads| && 0 <= i < |ads[a]| ==> Encodable(ads[a][i].1)
    ensures Run(st, EncodeAds(ads)).Ok?
    ensures var st' := Run(st, EncodeAds(ads)).value;
            st'.data == st.data + Decoded(ads) && st'.inAttr.None? && st'.inClassAd.None?
  {
    if ads != [] {
      var init: seq<seq<(string, Value)>> := ads[..|ads| - 1];
      var last := ads[|ads| - 1];
      assert forall a: int, i: int :: 0 <= a < |init| && 0 <= i < |init[a]| ==> Encodable(init[a][i].1) by {
        forall a: int, i: int | 0 <= a < |init| && 0 <= i < |init[a]| ensures Encodable(init[a][i].1) {
          assert init[a] == ads[a];
        }
      }
      AdsRoundTrip(st, init);
      var s1 := Run(st, EncodeAds(init)).value;
      assert forall i :: 0 <= i < |last| ==> Encodable(last[i].1) by {
        forall i | 0 <= i < |last| ensures Encodable(last[i].1) {
          assert Encodable(ads[|ads| - 1][i].1);
        }
      }
      AdRoundTrip(s1, last);
      RunThen(st, EncodeAds(init), EncodeAd(last), s1);
      DecodedSnoc(ads);
    }
  }

  /** The decoder run over a whole document the writer produced. */
  lemma DocumentRoundTrip(ads: seq<seq<(string, Value)>>)
    requires forall a, i :: 0 <= a < |ads| && 0 <= i < |ads[a]| ==> Encodable(ads[a][i].1)
    ensures Run(Initial, EncodeDocument(ads)).Ok?
    ensures Run(Initial, EncodeDocument(ads)).value.data == Decoded(ads)
  {
    assert EncodeDocument(ads) == [Start("classads", map[])] + (EncodeAds(ads) + [End("classads")]);
    RunStep(Initial, Start("classads", map[]), EncodeAds(ads) + [End("classads")], Initial);
    AdsRoundTrip(Initial, ads);
    var s1 := Run(Initial, EncodeAds(ads)).value;
    RunThen(Initial, EncodeAds(ads), [End("classads")], s1);
    RunOne(s1, End("classads"));
    assert [] + Decoded(ads) == Decoded(ads);
  }

  /** Decoding a document the writer produced gives back every classad, in order. */
  lemma DecodeRoundTrip(xmlData: seq<string>, expat: string -> ExpatOutput, ads: seq<seq<(string, Value)>>)
    requires FindHeader(xmlData).Some?
    requires expat(JoinLines(xmlData[FindHeader(xmlData).value..])) == ExpatOutput(EncodeDocument(ads), true)
    requires forall a, i :: 0 <= a < |ads| && 0 <= i < |ads[a]| ==> Encodable(ads[a][i].1)
    ensures Xml2ListSpec(xmlData, expat) == Ok(Decoded(ads))
  {
    DocumentRoundTrip(ads);
  }
}
