/**
 * The feature sidebar (`showFeatureSidebar`): one label/input pair per
 * schema field, typed by an ordered substring test on the field's XSD type,
 * filled with the feature's property or "", all starting read-only, and an
 * Edit button that flips every input and relabels itself after the first.
 */
module GridHandler {
  import opened Common

  /** A feature property value, with JavaScript truthiness. */
  datatype Value = Str(s: string) | Num(n: int) | Bool(b: bool) | Null | Object

  predicate Truthy(v: Value) {
    match v
    case Str(s) => s != ""
    case Num(n) => n != 0
    case Bool(b) => b
    case Null => false
    case Object => true
  }

  /**
   * One `{name, type}` record; each is `getAttribute`'s result, `null` (None)
   * when the schema element lacks the attribute.
   */
  datatype FieldDecl = FieldDecl(name: Option<string>, xsdType: Option<string>)

  datatype InputType = Text | Number | Date

  /** The input type for a field type, tested in this order, case-sensitively (gridHandler.js:32-40). */
  function InputTypeFor(t: string): InputType {
    if Contains(t, "string") then Text
    else if Contains(t, "int") || Contains(t, "float") then Number
    else if Contains(t, "date") then Date
    else Text
  }

  /** The property key a field name looks up: `properties[null]` reads the key "null". */
  function PropertyKey(name: Option<string>): string {
    if name.Some? then name.value else "null"
  }

  /** `properties[field.name] || ""` (gridHandler.js:29). */
  function ShownValue(properties: map<string, Value>, name: Option<string>): (v: Value)
    ensures Truthy(v) || v == Str("")
  {
    var key := PropertyKey(name);
    if key in properties && Truthy(properties[key]) then properties[key] else Str("")
  }

  /** A truthy property is shown as it is; a missing one, 0, false, null and "" all show as "". */
  lemma ShownValueDefault(properties: map<string, Value>, name: Option<string>)
    ensures PropertyKey(name) in properties && Truthy(properties[PropertyKey(name)])
        ==> ShownValue(properties, name) == properties[PropertyKey(name)]
    ensures PropertyKey(name) !in properties ==> ShownValue(properties, name) == Str("")
    ensures PropertyKey(name) in properties && properties[PropertyKey(name)] in {Num(0), Bool(false), Str(""), Null}
        ==> ShownValue(properties, name) == Str("")
  {
  }

  /** A type naming a string is a text input even if it also names a number or a date. */
  lemma StringTakesPrecedence(before: string, after: string)
    ensures InputTypeFor(before + "string" + after) == Text
  {
    ContainsInContext(before, "string", after);
  }

  lemma IntegerIsNumber(t: string)
    requires t == "xsd:integer"
    ensures InputTypeFor(t) == Number
  {
    ContainsInContext("xsd:", "int", "eger");
    assert "xsd:" + "int" + "eger" == t;
    IntegerLacksString(t);
  }

  /** "string" occurs nowhere in "xsd:integer": no position from 6 on leaves room, and every earlier one differs. */
  lemma IntegerLacksString(t: string)
    requires t == "xsd:integer"
    ensures !Contains(t, "string")
  {
    IntegerTailLacksString(t);
    DiffersAt(t[2..], "string", 0);
    NotContainedStep(t, 2, "string");
    DiffersAt(t[1..], "string", 1);
    NotContainedStep(t, 1, "string");
    DiffersAt(t, "string", 0);
    NotContainedStep(t, 0, "string");
    assert t[0..] == t;
  }

  lemma IntegerTailLacksString(t: string)
    requires t == "xsd:integer"
    ensures !Contains(t[3..], "string")
  {
    ShortNotContained(t[6..], "string");
    DiffersAt(t[5..], "string", 0);
    NotContainedStep(t, 5, "string");
    DiffersAt(t[4..], "string", 0);
    NotContainedStep(t, 4, "string");
    DiffersAt(t[3..], "string", 0);
    NotContainedStep(t, 3, "string");
  }

  lemma DateTimeIsDate(t: string)
    requires t == "xsd:dateTime"
    ensures InputTypeFor(t) == Date
  {
    DateTimeLacksNumbers(t);
    assert "xsd:" + "date" + "Time" == t;
    ContainsInContext("xsd:", "date", "Time");
  }

  lemma DateTimeLacksNumbers(t: string)
    requires t == "xsd:dateTime"
    ensures !Contains(t, "string") && !Contains(t, "int") && !Contains(t, "float")
  {
    MissingCharNotContained(t, "string", 'g');
    MissingCharNotContained(t, "int", 'n');
    MissingCharNotContained(t, "float", 'f');
  }

  /** A GML point property is a number input, because "Point" contains "int". */
  lemma PointPropertyIsNumber(t: string)
    requires t == "gml:PointPropertyType"
    ensures InputTypeFor(t) == Number
  {
    PointLacksString(t);
    PointNamesInt(t);
  }

  lemma PointLacksString(t: string)
    requires t == "gml:PointPropertyType"
    ensures !Contains(t, "string")
  {
    assert forall k :: 0 <= k < |t| ==> t[k] != 's';
    MissingCharNotContained(t, "string", 's');
  }

  lemma PointNamesInt(t: string)
    requires t == "gml:PointPropertyType"
    ensures Contains(t, "int")
  {
    assert "gml:Po" + "int" + "PropertyType" == t;
    ContainsInContext("gml:Po", "int", "PropertyType");
  }

  lemma FloatIsNumber(t: string)
    requires t == "xsd:float"
    ensures InputTypeFor(t) == Number
  {
    MissingCharNotContained(t, "string", 'g');
    MissingCharNotContained(t, "int", 'i');
    ContainsInContext("xsd:", "float", "");
    assert "xsd:" + "float" + "" == t;
  }

  /**
   * Doubles and decimals are numbers but match none of the tests, so they
   * fall back to text.
   */
  lemma UnmatchedNumberIsText(t: string)
    requires t == "xsd:double" || t == "xsd:decimal"
    ensures InputTypeFor(t) == Text
  {
    if t == "xsd:double" {
      MatchesNoTest(t);
    } else {
      MatchesNoTest(t);
    }
  }

  lemma MatchesNoTest(t: string)
    requires 'g' !in t && 'n' !in t && 'f' !in t && 't' !in t
    ensures InputTypeFor(t) == Text
  {
    MissingCharNotContained(t, "string", 'g');
    MissingCharNotContained(t, "int", 'n');
    MissingCharNotContained(t, "float", 'f');
    MissingCharNotContained(t, "date", 't');
  }

  /** Every input flipped. */
  function Toggled(s: seq<bool>): (r: seq<bool>)
    ensures |r| == |s|
    ensures forall i :: 0 <= i < |s| ==> r[i] == !s[i]
  {
    seq(|s|, i requires 0 <= i < |s| => !s[i])
  }

  /** Two Edit clicks restore every input (gridHandler.js:70-73). */
  lemma ToggleTwiceRestores(s: seq<bool>)
    ensures Toggled(Toggled(s)) == s
  {
  }

  /** The button's text for the state of the first input (gridHandler.js:75-79). */
  function Label(firstDisabled: bool): string {
    if firstDisabled then "Edit" else "Save"
  }

  /** Every field has a type attribute; a `null` type makes `field.type.includes` throw. */
  predicate AllTyped(fields: seq<FieldDecl>) {
    forall k :: 0 <= k < |fields| ==> fields[k].xsdType.Some?
  }

  /**
   * The right sidebar and the grid inside it: whether it is open, the inputs of
   * the form (name, type, value, and whether each is disabled), the Edit
   * button's text if there is a button, and whether the close button's handler
   * has been installed.
   */
  class Sidebar {
    var open: bool
    var names: seq<Option<string>>
    var kinds: seq<InputType>
    var values: seq<Value>
    var disabled: array<bool>
    var button: Option<string>
    var closeBound: bool

    /**
     * The inputs line up, and once the button exists all inputs share one state
     * and the button's text follows the first of them.
     */
    ghost predicate Valid()
      reads this, disabled
    {
      && |names| == |kinds| == |values| == disabled.Length
      && (button.Some? ==>
            && (forall k :: 0 <= k < disabled.Length ==> disabled[k] == disabled[0])
            && (disabled.Length > 0 ==> button.value == Label(disabled[0])))
    }

    /** The page before any feature was shown. */
    constructor ()
      ensures Valid() && !open && names == [] && button.None? && !closeBound
    {
      open, names, kinds, values, button, closeBound := false, [], [], [], None, false;
      disabled := new bool[0];
    }

    /** The form shows `fields`, in order, filled from `properties`, every input read-only. */
    ghost predicate Shows(properties: map<string, Value>, fields: seq<FieldDecl>)
      reads this, disabled
    {
      && AllTyped(fields)
      && |names| == |kinds| == |values| == |fields| == disabled.Length
      && forall k :: 0 <= k < |fields| ==>
           && names[k] == fields[k].name
           && kinds[k] == InputTypeFor(fields[k].xsdType.value)
           && values[k] == ShownValue(properties, fields[k].name)
           && disabled[k]
    }

    /**
     * `showFeatureSidebar(properties, fieldTypes)`: clears the grid and opens the
     * sidebar, then builds one input per field.  It fails (the call throws) when
     * `fieldTypes` is undefined or a field has no type; the grid then stays
     * empty (gridHandler.js:1-86).
     */
    method Show(properties: map<string, Value>, fieldTypes: Option<seq<FieldDecl>>) returns (ok: bool)
      modifies this
      ensures Valid() && open && fresh(disabled)
      ensures ok <==> fieldTypes.Some? && AllTyped(fieldTypes.value)
      ensures ok ==> Shows(properties, fieldTypes.value) && button == Some("Edit") && closeBound
      ensures !ok ==> names == [] && button.None? && closeBound == old(closeBound)
    {
      open := true;
      names, kinds, values, button := [], [], [], None;
      disabled := new bool[0];
      if fieldTypes.None? {
        return false;
      }
      var fields := fieldTypes.value;
      var ns: seq<Option<string>>, ks: seq<InputType>, vs: seq<Value> := [], [], [];
      var i := 0;
      while i < |fields|
        invariant 0 <= i <= |fields|
        invariant |ns| == |ks| == |vs| == i
        invariant open && names == [] && kinds == [] && values == [] && button.None?
        invariant disabled.Length == 0 && fresh(disabled) && closeBound == old(closeBound)
        invariant forall k :: 0 <= k < i ==>
                    && fields[k].xsdType.Some?
                    && ns[k] == fields[k].name
                    && ks[k] == InputTypeFor(fields[k].xsdType.value)
                    && vs[k] == ShownValue(properties, fields[k].name)
      {
        var field := fields[i];
        var shown := ShownValue(properties, field.name);
        if field.xsdType.None? {
          return false;
        }
        ns, ks, vs := ns + [field.name], ks + [InputTypeFor(field.xsdType.value)], vs + [shown];
        i := i + 1;
      }
      names, kinds, values := ns, ks, vs;
      disabled := new bool[|fields|](_ => true);
      assert forall k :: 0 <= k < disabled.Length ==> disabled[k];
      button := Some("Edit");
      closeBound := true;
      ok := true;
    }

    /**
     * A click on the Edit button: every input flips, then the button reads
     * "Edit" if the first input is disabled and "Save" otherwise.  With no
     * inputs `inputs[0]` is undefined and the handler throws before relabelling
     * (gridHandler.js:68-80).
     */
    method ClickEdit() returns (ok: bool)
      requires Valid() && button.Some?
      modifies disabled, this`button
      ensures Valid() && button.Some?
      ensures ok <==> disabled.Length > 0
      ensures disabled[..] == Toggled(old(disabled[..]))
      ensures ok ==> button == Some(Label(disabled[0]))
      ensures !ok ==> button == old(button)
    {
      ghost var before := disabled[..];
      var i := 0;
      while i < disabled.Length
        invariant 0 <= i <= disabled.Length
        invariant forall k :: 0 <= k < i ==> disabled[k] == !before[k]
        invariant forall k :: i <= k < disabled.Length ==> disabled[k] == before[k]
        invariant button == old(button)
      {
        disabled[i] := !disabled[i];
        i := i + 1;
      }
      if disabled.Length == 0 {
        return false;
      }
      button := Some(Label(disabled[0]));
      ok := true;
    }

    /** The close button removes the `open` class, once `Show` has installed its handler (gridHandler.js:83-85). */
    method Close()
      modifies this`open
      ensures open == (old(open) && !closeBound)
    {
      if closeBound {
        open := false;
      }
    }
  }
}
