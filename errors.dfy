/**
 * The exceptions of the presenter: the error class hierarchy rooted at
 * Slideck::Error, and every error the modelled code raises, with the
 * message text it carries in Ruby 3.4.
 */
module Errors {
  import opened Wrappers
  import opened RubyText
  import opened Values

  /** The exception classes that the modelled code can raise */
  datatype ErrorClass =
    | StandardError
    | SlideckError            // Slideck::Error
    | ReadError
    | InvalidArgumentError
    | InvalidMetadataKeyError
    | NoMethodError           // raised by Ruby itself, e.g. a String method called on nil
    | LibraryError            // raised inside the YAML library

  function Superclass(c: ErrorClass): Option<ErrorClass> {
    match c
    case StandardError => None
    case SlideckError => Some(StandardError)
    case ReadError => Some(SlideckError)
    case InvalidArgumentError => Some(SlideckError)
    case InvalidMetadataKeyError => Some(SlideckError)
    case NoMethodError => Some(StandardError)
    case LibraryError => Some(StandardError)
  }

  function Depth(c: ErrorClass): nat {
    match Superclass(c)
    case None => 0
    case Some(p) => if p == StandardError then 1 else 2
  }

  /** Class#<=: c is ancestor or a subclass of it */
  predicate IsKindOf(c: ErrorClass, ancestor: ErrorClass)
    decreases Depth(c)
  {
    c == ancestor ||
    match Superclass(c)
    case None => false
    case Some(p) => Depth(p) < Depth(c) && IsKindOf(p, ancestor)
  }

  /** The errors raised by the modelled code */
  datatype Error =
    | UnknownHorizontal(horizontal: string)
    | UnknownVertical(vertical: string)
    | InvalidMargin(margin: Value)
    | MarginArity(values: seq<Value>)
    | UnknownMarginSides(sides: seq<Value>)
    | MarginSideNotInteger(side: string, sideValue: Value)
    | UnknownMetadataKeys(metadataKeys: seq<string>, keys: seq<Value>)
    | NoMethod(methodName: string, receiver: Value)
    | Library(message: string)

  function ClassOf(e: Error): ErrorClass {
    match e
    case UnknownMetadataKeys(_, _) => InvalidMetadataKeyError
    case NoMethod(_, _) => NoMethodError
    case Library(_) => LibraryError
    case _ => InvalidArgumentError
  }

  /** InvalidMetadataKeyError#pluralize */
  function Pluralize(noun: string, count: int): (r: string)
    ensures count == 1 ==> r == noun
    ensures count != 1 ==> r == noun + "s"
  {
    noun + (if count == 1 then "" else "s")
  }

  /** The Ruby class name of a value, as NoMethodError reports its receiver */
  function ClassName(v: Value): string {
    match v
    case Nil => "nil"
    case Bool(b) => if b then "true" else "false"
    case Int(_) => "an instance of Integer"
    case Float(_) => "an instance of Float"
    case Str(_) => "an instance of String"
    case Sym(_) => "an instance of Symbol"
    case Arr(_) => "an instance of Array"
    case Hash(_) => "an instance of Hash"
  }

  /** Array#map(&:inspect) */
  function InspectAll(vs: seq<Value>): (r: seq<string>)
    ensures |r| == |vs|
    ensures forall i :: 0 <= i < |vs| ==> r[i] == Inspect(vs[i])
  {
    if vs == [] then [] else [Inspect(vs[0])] + InspectAll(vs[1..])
  }

  /** The inspected form of a list of symbol names */
  function InspectSymbols(names: seq<string>): (r: seq<string>)
    ensures |r| == |names|
    ensures forall i :: 0 <= i < |names| ==> r[i] == InspectSymbol(names[i])
  {
    if names == [] then [] else [InspectSymbol(names[0])] + InspectSymbols(names[1..])
  }

  /** The message each error carries */
  function Message(e: Error): string {
    match e
    case UnknownHorizontal(h) =>
      "unknown '" + h + "' horizontal alignment. Valid value is: left, center and right."
    case UnknownVertical(v) =>
      "unknown '" + v + "' vertical alignment. Valid value is: top, center and bottom."
    case InvalidMargin(m) =>
      "invalid value for margin: " + Inspect(m) + ".\n" +
      "The margin needs to be an integer, a string of integers, an array of integers " +
      "or a hash of side names and integer values."
    case MarginArity(vs) =>
      "wrong number of integers for margin: " + Inspect(Str(JoinValues(vs, ", "))) + ".\n" +
      "The margin needs to be specified with one, two, three or four integers."
    case UnknownMarginSides(sides) =>
      "unknown name" + (if |sides| > 1 then "s" else "") + " for margin: " +
      JoinWith(InspectAll(sides), ", ") + ".\n" +
      "Valid names are: top, left, right and bottom."
    case MarginSideNotInteger(side, v) =>
      side + " margin needs to be an integer, got: " + Inspect(v)
    case UnknownMetadataKeys(metaKeys, keys) =>
      "unknown '" + JoinValues(keys, ", ") + "' configuration " + Pluralize("key", |keys|) + "\n" +
      "Available keys are: " +
      JoinWith(InspectSymbols(metaKeys), ", ")
    case NoMethod(name, receiver) =>
      "undefined method '" + name + "' for " + ClassName(receiver)
    case Library(message) => message
  }

  /** ReadError, InvalidArgumentError and InvalidMetadataKeyError are all Slideck errors, and every error is a StandardError */
  lemma {:induction false} Hierarchy()
    ensures forall c :: IsKindOf(c, StandardError)
    ensures forall c :: IsKindOf(c, SlideckError) <==> c in {SlideckError, ReadError, InvalidArgumentError, InvalidMetadataKeyError}
    ensures forall e :: IsKindOf(ClassOf(e), SlideckError) <==> !(e.NoMethod? || e.Library?)
  {
    forall c: ErrorClass ensures IsKindOf(c, StandardError) {
      if c != StandardError {
        assert Superclass(c).Some?;
        var p := Superclass(c).value;
        assert Depth(p) < Depth(c);
        assert p == StandardError || Superclass(p) == Some(StandardError);
      }
    }
  }

  /** "key" for exactly one, "keys" for every other count, zero included */
  lemma {:induction false} PluralizeKey(count: int)
    ensures Pluralize("key", count) == (if count == 1 then "key" else "keys")
  {
  }

  const MetadataKeyNames: seq<string> := ["align", "footer", "margin", "pager", "symbols", "theme"]

  lemma {:induction false} InspectedKeyNames()
    ensures InspectSymbols(MetadataKeyNames) ==
            [":align", ":footer", ":margin", ":pager", ":symbols", ":theme"]
  {
    var names := InspectSymbols(MetadataKeyNames);
    assert names[0] == ":align" && names[1] == ":footer" && names[2] == ":margin";
    assert names[3] == ":pager" && names[4] == ":symbols" && names[5] == ":theme";
  }

  /** The list of allowed keys as the unknown-key message prints it */
  lemma {:induction false} AvailableKeysText()
    ensures JoinWith(InspectSymbols(MetadataKeyNames), ", ") == ListedKeys
  {
    InspectedKeyNames();
    var l1 := [":align"];
    var l2 := l1 + [":footer"];
    var l3 := l2 + [":margin"];
    var l4 := l3 + [":pager"];
    var l5 := l4 + [":symbols"];
    var l6 := l5 + [":theme"];
    assert InspectSymbols(MetadataKeyNames) == l6;
    JoinWithSnoc(l1, ":footer", ", ");
    JoinWithSnoc(l2, ":margin", ", ");
    JoinWithSnoc(l3, ":pager", ", ");
    JoinWithSnoc(l4, ":symbols", ", ");
    JoinWithSnoc(l5, ":theme", ", ");
  }

  /** The unknown-key message: singular for one key, plural for two, and the allowed keys inspected */
  lemma {:induction false} UnknownKeyMessages()
    ensures Message(UnknownMetadataKeys(MetadataKeyNames, [Sym("invalid")])) ==
            "unknown '" + "invalid" + "' configuration " + "key" + "\n" + "Available keys are: " + ListedKeys
    ensures Message(UnknownMetadataKeys(MetadataKeyNames, [Sym("invalid"), Sym("unknown")])) ==
            "unknown '" + ("invalid" + ", " + "unknown") + "' configuration " + "keys" + "\n" + "Available keys are: " + ListedKeys
  {
    AvailableKeysText();
    OneUnknownKey();
    TwoUnknownKeys();
  }

  /** The allowed keys as the unknown-key message lists them */
  const ListedKeys: string := ":align" + ", " + ":footer" + ", " + ":margin" + ", " + ":pager" + ", " + ":symbols" + ", " + ":theme"

  lemma {:induction false} OneUnknownKey()
    ensures JoinValues([Sym("invalid")], ", ") == "invalid" && Pluralize("key", 1) == "key"
  {
  }

  lemma {:induction false} TwoUnknownKeys()
    ensures JoinValues([Sym("invalid"), Sym("unknown")], ", ") == "invalid" + ", " + "unknown"
    ensures Pluralize("key", 2) == "keys"
  {
    assert JoinParts([Sym("invalid"), Sym("unknown")], ", ") == ["invalid", "unknown"];
  }
}
