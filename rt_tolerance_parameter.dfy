/**
 * The retention-time tolerance parameter of MZmine 2: a named, described
 * holder of one optional RTTolerance value that can be loaded from and saved
 * to an XML element, and checked for being set.
 */
module RTToleranceParameters {
  import opened Wrappers

  /** An RT tolerance: absolute (a fixed width) or relative (a percentage). */
  datatype RTTolerance = RTTolerance(isAbsolute: bool, tolerance: real)

  /**
   * The Java library's conversions between numbers and text:
   * `valueOf` is Double.valueOf (None where it throws NumberFormatException),
   * `toText` is String.valueOf(double).
   */
  datatype NumberText = NumberText(valueOf: string -> Option<real>, toText: real -> string)

  /** `x` is written as non-empty text that reads back as `x`. */
  predicate RoundTrips(conv: NumberText, x: real)
  {
    conv.toText(x) != [] && conv.valueOf(conv.toText(x)) == Some(x)
  }

  /** What an XML element holds that the parameter reads or writes. */
  datatype ElementContent = ElementContent(attributes: map<string, string>, textContent: string)
  {
    /** The DOM's getAttribute: the empty string for a missing attribute. */
    function GetAttribute(name: string): string
    {
      if name in attributes then attributes[name] else ""
    }
  }

  /** A DOM element, updated in place by the parameter's save operation. */
  class Element {
    var attributes: map<string, string>
    var textContent: string

    constructor (attributes: map<string, string>, textContent: string)
      ensures this.attributes == attributes && this.textContent == textContent
    {
      this.attributes := attributes;
      this.textContent := textContent;
    }

    function Content(): ElementContent
      reads this
    {
      ElementContent(attributes, textContent)
    }

    method SetAttribute(name: string, value: string)
      modifies this
      ensures attributes == old(attributes)[name := value]
      ensures textContent == old(textContent)
    {
      attributes := attributes[name := value];
    }

    method SetTextContent(text: string)
      modifies this
      ensures textContent == text
      ensures attributes == old(attributes)
    {
      textContent := text;
    }
  }

  /** A collection of error messages that checks append to. */
  class MessageCollection {
    var items: seq<string>

    constructor ()
      ensures items == []
    {
      items := [];
    }

    method Add(message: string)
      modifies this
      ensures items == old(items) + [message]
    {
      items := items + [message];
    }
  }

  /** The outcome of loading: the new value, or the exception that aborts the load. */
  datatype LoadOutcome = Loaded(value: Option<RTTolerance>) | NumberFormatException

  /** The value held after loading `e` into a parameter that held `current`. */
  function LoadValue(current: Option<RTTolerance>, e: ElementContent,
                     valueOf: string -> Option<real>): LoadOutcome
  {
    var isAbsolute := e.GetAttribute("type") != "percent";
    if |e.textContent| == 0 then Loaded(current)
    else match valueOf(e.textContent)
      case None => NumberFormatException
      case Some(tolerance) => Loaded(Some(RTTolerance(isAbsolute, tolerance)))
  }

  /** The element after saving `v` into `e`. */
  function SaveValue(v: Option<RTTolerance>, e: ElementContent,
                     toText: real -> string): ElementContent
  {
    match v
    case None => e
    case Some(t) =>
      ElementContent(e.attributes["type" := if t.isAbsolute then "absolute" else "percent"],
                     toText(t.tolerance))
  }

  /**
   * A tolerance parameter. `name` and `description` are assigned only by the
   * constructors; `value` is what the parameter holds, unset until given one.
   */
  class RTToleranceParameter {
    var name: string
    var description: string
    var value: Option<RTTolerance>

    constructor Default()
      ensures name == "Retention time tolerance"
      ensures description == "Maximum allowed difference between two retention time values"
      ensures value == None
    {
      name := "Retention time tolerance";
      description := "Maximum allowed difference between two retention time values";
      value := None;
    }

    constructor (name: string, description: string)
      ensures this.name == name && this.description == description && value == None
    {
      this.name := name;
      this.description := description;
      value := None;
    }

    function GetValue(): Option<RTTolerance>
      reads this
    {
      value
    }

    method SetValue(newValue: Option<RTTolerance>)
      modifies this`value
      ensures GetValue() == newValue
    {
      value := newValue;
    }

    /** A new parameter with the same name, description and value. */
    method Clone() returns (copy: RTToleranceParameter)
      ensures fresh(copy)
      ensures copy.name == name && copy.description == description
      ensures copy.GetValue() == GetValue()
    {
      copy := new RTToleranceParameter(name, description);
      copy.SetValue(GetValue());
    }

    /**
     * Reads the `type` attribute and the text of `xmlElement`; `thrown`
     * reports the NumberFormatException raised for text that is not a number.
     */
    method LoadValueFromXml(xmlElement: Element, valueOf: string -> Option<real>)
      returns (thrown: bool)
      modifies this`value
      ensures LoadValue(old(value), xmlElement.Content(), valueOf)
              == if thrown then NumberFormatException else Loaded(value)
      ensures thrown ==> value == old(value)
    {
      var typeAttr := xmlElement.Content().GetAttribute("type");
      var isAbsolute := typeAttr != "percent";
      var toleranceNum := xmlElement.textContent;
      if |toleranceNum| == 0 {
        return false;
      }
      match valueOf(toleranceNum)
      case None =>
        return true;
      case Some(tolerance) =>
        value := Some(RTTolerance(isAbsolute, tolerance));
        return false;
    }

    /** Writes the value, if any, into `xmlElement`; the value itself is kept. */
    method SaveValueToXml(xmlElement: Element, toText: real -> string)
      modifies xmlElement
      ensures xmlElement.Content() == SaveValue(value, old(xmlElement.Content()), toText)
    {
      if value.None? {
        return;
      }
      if value.value.isAbsolute {
        xmlElement.SetAttribute("type", "absolute");
      } else {
        xmlElement.SetAttribute("type", "percent");
      }
      var toleranceNum := toText(value.value.tolerance);
      xmlElement.SetTextContent(toleranceNum);
    }

    /** False, with one message added, exactly when no value is set. */
    method CheckValue(errorMessages: MessageCollection) returns (ok: bool)
      modifies errorMessages
      ensures ok <==> value.Some?
      ensures errorMessages.items
              == if ok then old(errorMessages.items)
                 else old(errorMessages.items) + [name + " is not set"]
    {
      if value.None? {
        errorMessages.Add(name + " is not set");
        return false;
      }
      return true;
    }
  }

  /** Empty text leaves the value as it was, set or not. */
  lemma LoadEmptyTextKeepsValue(current: Option<RTTolerance>, e: ElementContent,
                                valueOf: string -> Option<real>)
    requires e.textContent == []
    ensures LoadValue(current, e, valueOf) == Loaded(current)
  {
  }

  /** Numeric text sets the value; only `type="percent"` makes it relative. */
  lemma LoadNumberSetsValue(current: Option<RTTolerance>, e: ElementContent,
                            valueOf: string -> Option<real>)
    requires e.textContent != [] && valueOf(e.textContent).Some?
    ensures var r := LoadValue(current, e, valueOf);
      r.Loaded? && r.value.Some? &&
      (!r.value.value.isAbsolute <==> "type" in e.attributes && e.attributes["type"] == "percent") &&
      r.value.value.tolerance == valueOf(e.textContent).value
  {
  }

  /** Non-empty text that is not a number aborts the load. */
  lemma LoadNonNumberFails(current: Option<RTTolerance>, e: ElementContent,
                           valueOf: string -> Option<real>)
    requires e.textContent != [] && valueOf(e.textContent).None?
    ensures LoadValue(current, e, valueOf) == NumberFormatException
  {
  }

  /** Saving an unset value leaves the element as it was. */
  lemma SaveUnsetWritesNothing(e: ElementContent, toText: real -> string)
    ensures SaveValue(None, e, toText) == e
  {
  }

  /** Saving a value writes its mode as `type`, its number as text, and nothing else. */
  lemma SaveWritesTypeAndText(t: RTTolerance, e: ElementContent, toText: real -> string)
    ensures var r := SaveValue(Some(t), e, toText);
      r.GetAttribute("type") == (if t.isAbsolute then "absolute" else "percent") &&
      r.textContent == toText(t.tolerance) &&
      r.attributes.Keys == e.attributes.Keys + {"type"} &&
      forall k :: k in e.attributes && k != "type" ==> r.attributes[k] == e.attributes[k]
  {
  }

  /** Saving the same value twice gives the same element as saving it once. */
  lemma SaveIdempotent(v: Option<RTTolerance>, e: ElementContent, toText: real -> string)
    ensures SaveValue(v, SaveValue(v, e, toText), toText) == SaveValue(v, e, toText)
  {
  }

  /** A saved value loads back unchanged into any parameter. */
  lemma SaveThenLoad(t: RTTolerance, e: ElementContent, current: Option<RTTolerance>,
                     conv: NumberText)
    requires RoundTrips(conv, t.tolerance)
    ensures LoadValue(current, SaveValue(Some(t), e, conv.toText), conv.valueOf) == Loaded(Some(t))
  {
  }
}
