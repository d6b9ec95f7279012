// Building an event from the attributes of an XML `<event>` element: the
// reserved attributes set the type, sub-ordering, duration and the running
// absolute time, every other attribute becomes a typed property. Values are
// read with Qt's decimal integer conversion, modelled here on ASCII text.
module XmlStorableEvents {
  import opened Base
  import opened Events

  /** An XML attribute: qualified name and value, in document order. */
  type Attribute = (string, string)

  const IntMin: int := -0x8000_0000
  const IntMax: int := 0x7FFF_FFFF

  predicate IsSpace(c: char) {
    c == ' ' || c == '\t' || c == '\n' || c == '\r' || c == 11 as char || c == 12 as char
  }

  predicate IsDigit(c: char) {
    '0' <= c <= '9'
  }

  predicate AllDigits(s: string) {
    forall i :: 0 <= i < |s| ==> IsDigit(s[i])
  }

  /** `s` without its leading and trailing white space. */
  function Trim(s: string): (r: string)
    ensures |r| <= |s|
    ensures r != [] ==> !IsSpace(r[0]) && !IsSpace(r[|r| - 1])
    decreases |s|
  {
    if s != [] && IsSpace(s[0]) then Trim(s[1..])
    else if s != [] && IsSpace(s[|s| - 1]) then Trim(s[..|s| - 1])
    else s
  }

  /** The value of a non-empty run of decimal digits. */
  function DigitsValue(s: string): nat
    requires AllDigits(s)
  {
    if s == [] then 0
    else 10 * DigitsValue(s[..|s| - 1]) + (s[|s| - 1] as int - '0' as int)
  }

  /** An optional sign followed by at least one digit. */
  function ParseDecimal(s: string): Option<int>
  {
    if s != [] && (s[0] == '-' || s[0] == '+') then
      var digits := s[1..];
      if digits != [] && AllDigits(digits) then
        var v: int := DigitsValue(digits);
        Some(if s[0] == '-' then -v else v)
      else None
    else if s != [] && AllDigits(s) then Some(DigitsValue(s))
    else None
  }

  /** `QString::toInt(&ok)` in base 10: surrounding white space is ignored,
      and the conversion fails (`ok` false) on anything but a signed decimal
      number or on a value outside the 32-bit range. */
  function ToInt(s: string): (r: Option<int>)
    ensures r.Some? ==> IntMin <= r.value <= IntMax
  {
    match ParseDecimal(Trim(s))
    case Some(n) => if IntMin <= n <= IntMax then Some(n) else None
    case None => None
  }

  /** The decimal digits of `n`, most significant first. */
  function NatToDigits(n: nat): (s: string)
    ensures s != [] && AllDigits(s)
  {
    if n < 10 then [('0' as int + n) as char]
    else NatToDigits(n / 10) + [('0' as int + n % 10) as char]
  }

  /** `QString::number(n)`: the decimal text of `n`. */
  function IntToString(n: int): string
  {
    if n < 0 then "-" + NatToDigits(-n) else NatToDigits(n)
  }

  lemma {:induction false} DigitsRoundTrip(n: nat)
    ensures DigitsValue(NatToDigits(n)) == n
  {
    if n >= 10 {
      DigitsRoundTrip(n / 10);
      var s := NatToDigits(n);
      assert s[..|s| - 1] == NatToDigits(n / 10);
    }
  }

  lemma TrimNoSpace(s: string)
    requires forall i :: 0 <= i < |s| ==> !IsSpace(s[i])
    ensures Trim(s) == s
  {
  }

  /** The decimal text of a number has no white space in it. */
  lemma IntToStringNoSpace(n: int)
    ensures forall i :: 0 <= i < |IntToString(n)| ==> !IsSpace(IntToString(n)[i])
  {
    var s := IntToString(n);
    var digits := NatToDigits(if n < 0 then -n else n);
    forall i | 0 <= i < |s|
      ensures !IsSpace(s[i])
    {
      if n < 0 && i > 0 {
        assert s[i] == digits[i - 1];
      }
    }
  }

  /** The decimal text of a number parses back to it. */
  lemma ParseIntToString(n: int)
    ensures ParseDecimal(IntToString(n)) == Some(n)
  {
    var m := if n < 0 then -n else n;
    DigitsRoundTrip(m);
    if n < 0 {
      assert IntToString(n)[1..] == NatToDigits(m);
    }
  }

  /** Reading back the decimal text of any 32-bit value yields that value. */
  lemma ToIntRoundTrip(n: int)
    requires IntMin <= n <= IntMax
    ensures ToInt(IntToString(n)) == Some(n)
  {
    IntToStringNoSpace(n);
    TrimNoSpace(IntToString(n));
    ParseIntToString(n);
  }

  /** The empty value and a bare sign are not numbers. */
  lemma ToIntRejects()
    ensures ToInt("") == None && ToInt("-") == None && ToInt("+") == None && ToInt(" ") == None
  {
    assert Trim(" ") == Trim("");
  }

  /** `QString::toLower`, on ASCII letters. */
  function AsciiLower(s: string): (r: string)
    ensures |r| == |s|
    ensures forall i :: 0 <= i < |s| ==> r[i] == (if 'A' <= s[i] <= 'Z' then (s[i] as int + 32) as char else s[i])
  {
    if s == [] then []
    else
      var c := s[0];
      [if 'A' <= c <= 'Z' then (c as int + 32) as char else c] + AsciiLower(s[1..])
  }

  /** The type a generic attribute's value gets: Bool for "true"/"false" in
      any letter case, else Int when it reads as an integer, else String. */
  function Classify(v: string): (r: PropertyValue)
    ensures AsciiLower(v) == "true" ==> r == BoolValue(true)
    ensures AsciiLower(v) == "false" ==> r == BoolValue(false)
    ensures AsciiLower(v) != "true" && AsciiLower(v) != "false" && ToInt(v).Some? ==> r == IntValue(ToInt(v).value)
    ensures AsciiLower(v) != "true" && AsciiLower(v) != "false" && ToInt(v).None? ==> r == StringValue(v)
  {
    var lower := AsciiLower(v);
    if lower == "true" || lower == "false" then BoolValue(lower == "true")
    else match ToInt(v)
      case Some(n) => IntValue(n)
      case None => StringValue(v)
  }

  /** An example of `Classify`'s first case: letter case does not matter
      for the boolean values. */
  lemma ClassifyBoolean()
    ensures Classify("TRUE") == BoolValue(true)
  {
    assert AsciiLower("TRUE") == "true";
  }

  /** An example of `Classify`'s third case: a signed number becomes an
      integer. */
  lemma ClassifyNumber()
    ensures Classify("-12") == IntValue(-12)
  {
    ToIntRoundTrip(-12);
    assert IntToString(-12) == "-12";
    assert AsciiLower("-12") == "-12";
  }

  predicate Reserved(name: string) {
    name in {"package", "type", "subordering", "duration", "absoluteTime", "timeOffset"}
  }

  /** What loading has built so far: the event and the running absolute time. */
  datatype LoadState = LoadState(event: Event, time: TimeT)

  /** The effect of one attribute. `noteForName` stands for the notation
      lookup of a note name's duration; `None` is a malformed name. */
  function Step(st: LoadState, a: Attribute, noteForName: string -> Option<TimeT>): LoadState
  {
    var (name, value) := a;
    if name == "package" then st
    else if name == "type" then st.(event := st.event.(eventType := value))
    else if name == "subordering" then
      (match ToInt(value)
       case Some(o) => if o != 0 then st.(event := st.event.(subOrdering := o)) else st
       case None => st)
    else if name == "duration" then
      (match ToInt(value)
       case Some(d) => st.(event := st.event.(duration := d))
       case None =>
         (match noteForName(value)
          case Some(d) => st.(event := st.event.(duration := d))
          case None => st))
    else if name == "absoluteTime" then
      (match ToInt(value)
       case Some(t) => st.(time := t)
       case None => st)
    else if name == "timeOffset" then
      (match ToInt(value)
       case Some(t) => st.(time := st.time + t)
       case None => st)
    else st.(event := SetProperty(st.event, name, Classify(value), true))
  }

  /** All attributes, applied in document order. */
  function Interpret(attrs: seq<Attribute>, st: LoadState, noteForName: string -> Option<TimeT>): LoadState
  {
    if attrs == [] then st else Interpret(attrs[1..], Step(st, attrs[0], noteForName), noteForName)
  }

  lemma {:induction false} InterpretAppend(a: seq<Attribute>, b: seq<Attribute>, st: LoadState,
                                           noteForName: string -> Option<TimeT>)
    ensures Interpret(a + b, st, noteForName) == Interpret(b, Interpret(a, st, noteForName), noteForName)
  {
    if a != [] {
      assert (a + b)[1..] == a[1..] + b;
      InterpretAppend(a[1..], b, Step(st, a[0], noteForName), noteForName);
    } else {
      assert a + b == b;
    }
  }

  /** The running time changes only through `absoluteTime` and `timeOffset`. */
  lemma {:induction false} TimeOnlyFromTimeAttributes(attrs: seq<Attribute>, st: LoadState,
                                                      noteForName: string -> Option<TimeT>)
    requires forall i :: 0 <= i < |attrs| ==> attrs[i].0 != "absoluteTime" && attrs[i].0 != "timeOffset"
    ensures Interpret(attrs, st, noteForName).time == st.time
  {
    if attrs != [] {
      TimeOnlyFromTimeAttributes(attrs[1..], Step(st, attrs[0], noteForName), noteForName);
    }
  }

  /** A numeric `absoluteTime` overwrites the running time, a numeric
      `timeOffset` adds to it, and a non-numeric one is ignored. */
  lemma TimeAttributes(attrs: seq<Attribute>, v: string, st: LoadState, noteForName: string -> Option<TimeT>)
    ensures var before := Interpret(attrs, st, noteForName);
      Interpret(attrs + [("absoluteTime", v)], st, noteForName).time ==
        (if ToInt(v).Some? then ToInt(v).value else before.time) &&
      Interpret(attrs + [("timeOffset", v)], st, noteForName).time ==
        (if ToInt(v).Some? then before.time + ToInt(v).value else before.time)
  {
    InterpretAppend(attrs, [("absoluteTime", v)], st, noteForName);
    InterpretAppend(attrs, [("timeOffset", v)], st, noteForName);
  }

  /** A numeric `duration` sets the duration; a note name sets the note's
      duration; a malformed name leaves it unchanged. */
  lemma DurationAttribute(attrs: seq<Attribute>, v: string, st: LoadState, noteForName: string -> Option<TimeT>)
    ensures var before := Interpret(attrs, st, noteForName).event.duration;
      Interpret(attrs + [("duration", v)], st, noteForName).event.duration ==
        if ToInt(v).Some? then ToInt(v).value
        else if noteForName(v).Some? then noteForName(v).value
        else before
  {
    InterpretAppend(attrs, [("duration", v)], st, noteForName);
  }

  /** `subordering` is set only by a non-zero number. */
  lemma SubOrderingAttribute(attrs: seq<Attribute>, v: string, st: LoadState, noteForName: string -> Option<TimeT>)
    ensures var before := Interpret(attrs, st, noteForName).event.subOrdering;
      Interpret(attrs + [("subordering", v)], st, noteForName).event.subOrdering ==
        if ToInt(v).Some? && ToInt(v).value != 0 then ToInt(v).value else before
  {
    InterpretAppend(attrs, [("subordering", v)], st, noteForName);
  }

  /** `package` is ignored; `type` sets the type and nothing else. */
  lemma PackageAndType(attrs: seq<Attribute>, v: string, st: LoadState, noteForName: string -> Option<TimeT>)
    ensures Interpret(attrs + [("package", v)], st, noteForName) == Interpret(attrs, st, noteForName)
    ensures Interpret(attrs + [("type", v)], st, noteForName) ==
      var before := Interpret(attrs, st, noteForName);
      before.(event := before.event.(eventType := v))
  {
    InterpretAppend(attrs, [("package", v)], st, noteForName);
    InterpretAppend(attrs, [("type", v)], st, noteForName);
  }

  /** Any other attribute becomes a persistent property of its classified
      type; the rest of the event and the time are untouched. */
  lemma GenericAttribute(attrs: seq<Attribute>, name: string, v: string, st: LoadState,
                         noteForName: string -> Option<TimeT>)
    requires !Reserved(name)
    ensures var before := Interpret(attrs, st, noteForName);
      var after := Interpret(attrs + [(name, v)], st, noteForName);
      after.time == before.time &&
      after.event == before.event.(properties := before.event.properties[name := Property(Classify(v), true)])
  {
    InterpretAppend(attrs, [(name, v)], st, noteForName);
  }

  /** `QXmlAttributes::value(qName)`: the value of the first attribute with
      that name, or the empty string. */
  function AttributeValue(attrs: seq<Attribute>, qName: string): (v: string)
    ensures v != "" ==> exists i :: 0 <= i < |attrs| && attrs[i] == (qName, v)
  {
    if attrs == [] then ""
    else if attrs[0].0 == qName then attrs[0].1
    else AttributeValue(attrs[1..], qName)
  }

  /** The value a typed attribute of `setPropertyFromAttributes` gives;
      `toInt()` without a flag yields 0 on failure. */
  function TypedValue(a: Attribute): Option<PropertyValue>
  {
    if a.0 == "bool" then Some(BoolValue(AsciiLower(a.1) == "true"))
    else if a.0 == "int" then Some(IntValue(if ToInt(a.1).Some? then ToInt(a.1).value else 0))
    else if a.0 == "string" then Some(StringValue(a.1))
    else None
  }

  /** The first typed attribute's value. */
  function FirstTyped(attrs: seq<Attribute>): Option<PropertyValue>
  {
    if attrs == [] then None
    else if TypedValue(attrs[0]).Some? then TypedValue(attrs[0])
    else FirstTyped(attrs[1..])
  }

  /** `FirstTyped` gives nothing exactly when no attribute's name is bool,
      int or string. */
  lemma {:induction false} FirstTypedNone(attrs: seq<Attribute>)
    ensures FirstTyped(attrs).None? <==> forall i :: 0 <= i < |attrs| ==> TypedValue(attrs[i]).None?
  {
    if attrs != [] {
      FirstTypedNone(attrs[1..]);
      if FirstTyped(attrs).None? {
        forall i | 0 <= i < |attrs|
          ensures TypedValue(attrs[i]).None?
        {
          if i > 0 {
            assert attrs[i] == attrs[1..][i - 1];
          }
        }
      } else if TypedValue(attrs[0]).None? {
        var k :| 0 <= k < |attrs[1..]| && TypedValue(attrs[1..][k]).Some?;
        assert attrs[1..][k] == attrs[k + 1];
      }
    }
  }

  /** Otherwise `FirstTyped` picks the attribute at the first index whose
      name is bool, int or string. */
  lemma {:induction false} FirstTypedIsFirst(attrs: seq<Attribute>)
    requires FirstTyped(attrs).Some?
    ensures exists i :: 0 <= i < |attrs| && FirstTyped(attrs) == TypedValue(attrs[i]) &&
                        (forall j :: 0 <= j < i ==> TypedValue(attrs[j]).None?)
  {
    if TypedValue(attrs[0]).None? {
      FirstTypedIsFirst(attrs[1..]);
      var k :| 0 <= k < |attrs[1..]| && FirstTyped(attrs[1..]) == TypedValue(attrs[1..][k]) &&
        forall j :: 0 <= j < k ==> TypedValue(attrs[1..][j]).None?;
      assert FirstTyped(attrs) == TypedValue(attrs[k + 1]);
      forall j | 0 <= j < k + 1
        ensures TypedValue(attrs[j]).None?
      {
        if j > 0 {
          assert attrs[j] == attrs[1..][j - 1];
        }
      }
    } else {
      assert FirstTyped(attrs) == TypedValue(attrs[0]);
    }
  }

  /** An event under construction from XML: the event fields it inherits. */
  class XmlStorableEvent {
    var eventType: string
    var absoluteTime: TimeT
    var duration: TimeT
    var subOrdering: int
    var properties: map<string, Property>

    constructor Empty()
      ensures AsEvent() == EmptyEvent
    {
      eventType, absoluteTime, duration, subOrdering, properties := "", 0, 0, 0, map[];
    }

    function AsEvent(): Event
      reads this
    {
      Event(eventType, absoluteTime, duration, subOrdering, properties)
    }

    /** `setPropertyFromAttributes`: without a `name` attribute nothing
        happens; otherwise the first bool, int or string attribute sets the
        named property, and later ones are ignored. */
    method SetPropertyFromAttributes(attrs: seq<Attribute>, persistent: bool)
      modifies this`properties
      ensures var name := AttributeValue(attrs, "name");
        properties == if name != "" && FirstTyped(attrs).Some? then
          old(properties)[name := Property(FirstTyped(attrs).value, persistent)]
        else old(properties)
    {
      var have := false;
      var name := AttributeValue(attrs, "name");
      if name == "" {
        return;
      }
      var i := 0;
      while i < |attrs|
        invariant 0 <= i <= |attrs|
        invariant !have ==> properties == old(properties) && FirstTyped(attrs) == FirstTyped(attrs[i..])
        invariant have ==>
          FirstTyped(attrs).Some? &&
          properties == old(properties)[name := Property(FirstTyped(attrs).value, persistent)]
      {
        var (attrName, attrVal) := attrs[i];
        assert attrs[i..][1..] == attrs[i + 1..];
        if attrName == "name" {
        } else if have {
        } else if attrName == "bool" {
          properties := properties[name := Property(BoolValue(AsciiLower(attrVal) == "true"), persistent)];
          have := true;
        } else if attrName == "int" {
          var n := ToInt(attrVal);
          properties := properties[name := Property(IntValue(if n.Some? then n.value else 0), persistent)];
          have := true;
        } else if attrName == "string" {
          properties := properties[name := Property(StringValue(attrVal), persistent)];
          have := true;
        }
        i := i + 1;
      }
    }
  }

  /** The attribute constructor `XmlStorableEvent(attributes, absoluteTime)`:
      starts from an empty event with duration 0, applies the attributes in
      order, and stamps the event with the final running time, which it also
      hands back to the caller. */
  method NewXmlStorableEvent(attrs: seq<Attribute>, absoluteTime: TimeT, noteForName: string -> Option<TimeT>)
    returns (e: XmlStorableEvent, time: TimeT)
    ensures fresh(e)
    ensures var r := Interpret(attrs, LoadState(EmptyEvent, absoluteTime), noteForName);
      time == r.time && e.AsEvent() == r.event.(absoluteTime := r.time)
  {
    e := new XmlStorableEvent.Empty();
    e.duration := 0;
    time := absoluteTime;
    var i := 0;
    while i < |attrs|
      invariant 0 <= i <= |attrs|
      invariant Interpret(attrs, LoadState(EmptyEvent, absoluteTime), noteForName) ==
        Interpret(attrs[i..], LoadState(e.AsEvent(), time), noteForName)
    {
      var (attrName, attrVal) := attrs[i];
      assert attrs[i..][1..] == attrs[i + 1..];
      if attrName == "package" {
      } else if attrName == "type" {
        e.eventType := attrVal;
      } else if attrName == "subordering" {
        var o := ToInt(attrVal);
        if o.Some? && o.value != 0 {
          e.subOrdering := o.value;
        }
      } else if attrName == "duration" {
        var d := ToInt(attrVal);
        if d.None? {
          var n := noteForName(attrVal);
          if n.Some? {
            e.duration := n.value;
          }
        } else {
          e.duration := d.value;
        }
      } else if attrName == "absoluteTime" {
        var t := ToInt(attrVal);
        if t.Some? {
          time := t.value;
        }
      } else if attrName == "timeOffset" {
        var t := ToInt(attrVal);
        if t.Some? {
          time := time + t.value;
        }
      } else {
        e.properties := e.properties[attrName := Property(Classify(attrVal), true)];
      }
      i := i + 1;
    }
    assert attrs[i..] == [];
    e.absoluteTime := time;
  }
}
