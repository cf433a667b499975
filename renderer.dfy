/** The response renderer of index.js: `printResponse` and the decode fallback in front of
    it. A decoded payload becomes the lines written to the console, chosen by probing the
    payload's shape in a fixed order. */
module Renderer {
  import opened Wrappers
  import opened JsText

  /** A payload as `JSON.parse` returns it. A number is kept as the text JavaScript prints
      for it (`String(n)`, so minus zero is already "0"); an object is a map, since
      `JSON.parse` keeps the last value of a repeated key. */
  datatype Value =
    | Null
    | Bool(b: bool)
    | Num(text: string)
    | Str(s: string)
    | Arr(elems: seq<Value>)
    | Obj(fields: map<string, Value>)

  /** JavaScript truthiness: `null`, `false`, zero, NaN and the empty string are falsy;
      every array and every object, even an empty one, is truthy. */
  predicate Truthy(v: Value)
  {
    match v
    case Null => false
    case Bool(b) => b
    case Num(t) => t != "0" && t != "NaN"
    case Str(s) => s != ""
    case Arr(_) => true
    case Obj(_) => true
  }

  /** `v.key` (or a destructured `key` of `v`): only objects have these properties; on any
      other value the read gives `undefined`. */
  function Get(v: Value, key: string): Option<Value>
  {
    if v.Obj? && key in v.fields then Some(v.fields[key]) else None
  }

  /** Truthiness of a property read, where `undefined` is falsy. */
  predicate Present(f: Option<Value>) { f.Some? && Truthy(f.value) }

  /** Whether `String(v)` returns. JSON never yields a function, so an object whose own
      `toString` key holds any value has no callable `toString`; `valueOf` then returns the
      object itself and the conversion throws a `TypeError`. An array converts through
      `join`, which converts each element that is not `null`. */
  predicate Stringable(v: Value)
    decreases v
  {
    match v
    case Obj(f) => "toString" !in f
    case Arr(xs) => forall i :: 0 <= i < |xs| ==> xs[i].Null? || Stringable(xs[i])
    case _ => true
  }

  /** Whether a property read can be placed in a template literal: `undefined` always can. */
  predicate Showable(f: Option<Value>) { f.None? || Stringable(f.value) }

  /** How a value reads inside a template literal (`String(v)`). */
  function ShowValue(v: Value): string
    requires Stringable(v)
    decreases v
  {
    match v
    case Null => "null"
    case Bool(b) => if b then "true" else "false"
    case Num(t) => t
    case Str(s) => s
    case Arr(xs) => ShowElems(xs)
    case Obj(_) => "[object Object]"
  }

  /** `xs.join(",")`: the elements' texts between commas, `null` elements as nothing. */
  function ShowElems(xs: seq<Value>): string
    requires forall i :: 0 <= i < |xs| ==> xs[i].Null? || Stringable(xs[i])
    decreases xs
  {
    if |xs| == 0 then ""
    else
      var head := if xs[0].Null? then "" else ShowValue(xs[0]);
      if |xs| == 1 then head else head + "," + ShowElems(xs[1..])
  }

  /** How a property read reads inside a template literal: `undefined` when absent. */
  function Show(f: Option<Value>): string
    requires Showable(f)
  {
    if f.None? then "undefined" else ShowValue(f.value)
  }

  /** What `printResponse` wrote before it returned, and whether it stopped by throwing a
      `TypeError` instead of returning. */
  datatype Printed = Printed(lines: seq<string>, threw: bool)

  const NoDataLine := "La acción se completó, pero no hay datos para mostrar."
  const ListHeader := "Lista de productos recibidos:"
  const DescriptionPrefix := "Descripción: "
  const Ellipsis := "..."

  /** The length to which a description is cut. */
  const DescriptionCut := 100

  /** An element of the list whose line cannot be printed: `null` cannot be destructured,
      and an `id`, `title` or `price` that does not convert makes the template throw. */
  predicate ItemFails(e: Value)
  {
    e.Null? || !Showable(Get(e, "id")) || !Showable(Get(e, "title")) || !Showable(Get(e, "price"))
  }

  /** One line of the list: `[id] title - $price` of an element. */
  function ItemLine(e: Value): (line: string)
    requires !ItemFails(e)
    ensures var id, price := Show(Get(e, "id")), Show(Get(e, "price"));
      && |line| >= |id| + |price| + 7
      && line[..|id| + 3] == "[" + id + "] "
      && line[|line| - |price| - 4..] == " - $" + price
  {
    var id, title, price := Show(Get(e, "id")), Show(Get(e, "title")), Show(Get(e, "price"));
    var line := "[" + id + "] " + title + " - $" + price;
    assert line == ("[" + id + "] ") + title + (" - $" + price);
    line
  }

  /** The line of every element, in order: what the list prints when nothing goes wrong. */
  function ItemLines(xs: seq<Value>): (lines: seq<string>)
    requires forall i :: 0 <= i < |xs| ==> !ItemFails(xs[i])
  {
    seq(|xs|, i requires 0 <= i < |xs| => ItemLine(xs[i]))
  }

  /** The `forEach` over the elements. The walk stops, throwing, at the first element whose
      line cannot be printed, after the lines of the elements before it. */
  function ListLines(xs: seq<Value>): (p: Printed)
    ensures |p.lines| <= |xs|
    ensures p.threw <==> exists i :: 0 <= i < |xs| && ItemFails(xs[i])
    decreases |xs|
  {
    if |xs| == 0 then Printed([], false)
    else if ItemFails(xs[0]) then Printed([], true)
    else
      var rest := ListLines(xs[1..]);
      assert forall i :: 0 < i < |xs| ==> xs[i] == xs[1..][i - 1];
      Printed([ItemLine(xs[0])] + rest.lines, rest.threw)
  }

  /** The description line: the first `DescriptionCut` characters and, always, the ellipsis. */
  function DescriptionLine(d: string): (line: string)
    ensures var shown := if |d| <= DescriptionCut then |d| else DescriptionCut;
      && |line| == |DescriptionPrefix| + shown + |Ellipsis|
      && line[..|DescriptionPrefix|] == DescriptionPrefix
      && line[|DescriptionPrefix|..|DescriptionPrefix| + shown] == d[..shown]
      && line[|line| - |Ellipsis|..] == Ellipsis
  {
    var kept := if |d| <= DescriptionCut then d else d[..DescriptionCut];
    assert kept == d[..|kept|];
    DescriptionPrefix + kept + Ellipsis
  }

  /** The four fixed lines of a product's detail block: each label and the property shown
      after it, in the order they are printed. */
  const DetailFields: seq<(string, string)> :=
    [("Producto #", "id"), ("Título: ", "title"), ("Precio: $", "price"), ("Categoría: ", "category")]

  /** One fixed line of the detail block. */
  function FieldLine(data: Value, field: (string, string)): string
    requires Showable(Get(data, field.1))
  {
    field.0 + Show(Get(data, field.1))
  }

  /** The line of every field, in order: what the block prints when nothing goes wrong. */
  function FieldLinesOf(data: Value, fields: seq<(string, string)>): seq<string>
    requires forall i :: 0 <= i < |fields| ==> Showable(Get(data, fields[i].1))
  {
    seq(|fields|, i requires 0 <= i < |fields| => FieldLine(data, fields[i]))
  }

  /** The fixed lines, one `console.log` after the other: the first property that does not
      convert throws, after the lines of the fields before it. */
  function FieldLines(data: Value, fields: seq<(string, string)>): (p: Printed)
    ensures |p.lines| <= |fields|
    ensures p.threw <==> exists i :: 0 <= i < |fields| && !Showable(Get(data, fields[i].1))
    decreases |fields|
  {
    if |fields| == 0 then Printed([], false)
    else if !Showable(Get(data, fields[0].1)) then Printed([], true)
    else
      var rest := FieldLines(data, fields[1..]);
      assert forall i :: 0 < i < |fields| ==> fields[i] == fields[1..][i - 1];
      Printed([FieldLine(data, fields[0])] + rest.lines, rest.threw)
  }

  /** A detail block whose fixed lines cannot all be printed. */
  predicate HeadFails(data: Value)
  {
    || !Showable(Get(data, "id")) || !Showable(Get(data, "title"))
    || !Showable(Get(data, "price")) || !Showable(Get(data, "category"))
  }

  /** Some field of `DetailFields` does not convert exactly when `HeadFails`. */
  lemma DetailFieldsFail(data: Value)
    ensures (exists i :: 0 <= i < |DetailFields| && !Showable(Get(data, DetailFields[i].1))) <==>
      HeadFails(data)
  {
    assert DetailFields[0].1 == "id" && DetailFields[1].1 == "title";
    assert DetailFields[2].1 == "price" && DetailFields[3].1 == "category";
    if !Showable(Get(data, "id")) {
      assert !Showable(Get(data, DetailFields[0].1));
    } else if !Showable(Get(data, "title")) {
      assert !Showable(Get(data, DetailFields[1].1));
    } else if !Showable(Get(data, "price")) {
      assert !Showable(Get(data, DetailFields[2].1));
    } else if !Showable(Get(data, "category")) {
      assert !Showable(Get(data, DetailFields[3].1));
    }
  }

  /** The detail block: the fixed lines, then the description. A truthy description that
      is not a string has no `substring`, so calling it throws after the fixed lines. */
  function DetailLines(data: Value): (p: Printed)
    ensures |p.lines| <= |DetailFields| + 1
    ensures p.threw <==>
      (HeadFails(data) ||
       (Present(Get(data, "description")) && !Get(data, "description").value.Str?))
  {
    var head := FieldLines(data, DetailFields);
    var d := Get(data, "description");
    DetailFieldsFail(data);
    if head.threw || !Present(d) then head
    else if d.value.Str? then Printed(head.lines + [DescriptionLine(d.value.s)], false)
    else Printed(head.lines, true)
  }

  /** The line of a simulated deletion. */
  function DeletionLine(id: Value): string
    requires Stringable(id)
  {
    "Producto con ID " + ShowValue(id) + " eliminado (simulado por la API)."
  }

  /** `printResponse(data)`. `inspect` is the console's rendering of a non-string argument,
      which is runtime code. Only an array or an object can make it throw, and it prints at
      least one line unless it throws; an array always prints its header. */
  function Render(data: Value, inspect: Value -> string): (p: Printed)
    ensures |p.lines| >= 1 || p.threw
    ensures data.Arr? ==> |p.lines| >= 1 && p.lines[0] == ListHeader
    ensures p.threw ==> data.Arr? || data.Obj?
  {
    if !Truthy(data) then Printed([NoDataLine], false)
    else if data.Arr? then
      var p := ListLines(data.elems);
      Printed([ListHeader] + p.lines, p.threw)
    else if Present(Get(data, "title")) then DetailLines(data)
    else if Present(Get(data, "id")) then
      if !Stringable(data.fields["id"]) then Printed([], true)
      else Printed([DeletionLine(data.fields["id"])], false)
    else Printed(["Respuesta procesada: " + inspect(data)], false)
  }

  /** The decode step: `parsed` is what `JSON.parse(text)` returned, `None` when it threw.
      A body that does not decode is treated like a falsy payload. */
  function Decode(parsed: Option<Value>): (data: Value)
    ensures !Truthy(data) <==> parsed.None? || !Truthy(parsed.value)
    ensures parsed.None? ==> data == Null
  {
    if parsed.None? then Null else parsed.value
  }

  const ErrorPrefix := "Ocurrió un error al hacer la solicitud:"

  /** Everything printed for the payload: the renderer's lines and, when it threw, the line
      of the `catch` around it, with the runtime's error message `errorText`. */
  function Report(p: Printed, errorText: string): (out: seq<string>)
    ensures |out| == |p.lines| + (if p.threw then 1 else 0)
    ensures out[..|p.lines|] == p.lines
    ensures p.threw ==> out[|out| - 1] == ErrorPrefix + " " + errorText
  {
    p.lines + (if p.threw then [ErrorPrefix + " " + errorText] else [])
  }

  // ---------------------------------------------------------------------------------------
  // Conversion to text

  /** Truthiness of a payload: exactly `null`, `false`, zero, NaN and the empty string are
      falsy. */
  lemma FalsyValues(v: Value)
    ensures !Truthy(v) <==> v == Null || v == Bool(false) || v == Num("0") || v == Num("NaN") || v == Str("")
  {
  }

  /** The text of each element as `join` writes it: `null` as nothing. */
  function ElemTexts(xs: seq<Value>): seq<string>
    requires forall i :: 0 <= i < |xs| ==> xs[i].Null? || Stringable(xs[i])
  {
    seq(|xs|, i requires 0 <= i < |xs| => if xs[i].Null? then "" else ShowValue(xs[i]))
  }

  /** An array reads as its elements' texts joined with commas; an empty one as nothing. */
  lemma {:induction false} ShowArrayJoins(xs: seq<Value>)
    requires forall i :: 0 <= i < |xs| ==> xs[i].Null? || Stringable(xs[i])
    ensures |xs| == 0 ==> ShowElems(xs) == ""
    ensures |xs| >= 1 ==> ShowElems(xs) == Join(ElemTexts(xs), ',')
    decreases |xs|
  {
    if |xs| > 1 {
      ShowArrayJoins(xs[1..]);
      assert ElemTexts(xs)[1..] == ElemTexts(xs[1..]);
    }
  }

  /** An object converts exactly when it has no own `toString` key, and then reads as
      `[object Object]`; an array converts exactly when each of its non-null elements does. */
  lemma StringableObjects(v: Value)
    requires v.Obj? || v.Arr?
    ensures v.Obj? ==> (Stringable(v) <==> "toString" !in v.fields)
    ensures v.Obj? && Stringable(v) ==> ShowValue(v) == "[object Object]"
    ensures v.Arr? ==> (Stringable(v) <==>
      forall i :: 0 <= i < |v.elems| ==> v.elems[i].Null? || Stringable(v.elems[i]))
  {
  }

  // ---------------------------------------------------------------------------------------
  // The list and the fixed lines

  /** When every element prints, the list has one line per element, in order. */
  lemma {:induction false} ListLinesAllItems(xs: seq<Value>)
    requires forall i :: 0 <= i < |xs| ==> !ItemFails(xs[i])
    ensures ListLines(xs) == Printed(ItemLines(xs), false)
    decreases |xs|
  {
    if |xs| > 0 {
      assert xs == [xs[0]] + xs[1..];
      ListLinesAllItems(xs[1..]);
      assert ItemLines(xs) == [ItemLine(xs[0])] + ItemLines(xs[1..]);
    }
  }

  /** The walk stops at the first element that does not print, after the lines of the
      elements before it. */
  lemma {:induction false} ListLinesStop(xs: seq<Value>, k: nat)
    requires k < |xs| && ItemFails(xs[k])
    requires forall i :: 0 <= i < k ==> !ItemFails(xs[i])
    ensures ListLines(xs) == Printed(ItemLines(xs[..k]), true)
    decreases k
  {
    if k > 0 {
      assert xs[1..][k - 1] == xs[k];
      assert forall i :: 0 <= i < k - 1 ==> xs[1..][i] == xs[i + 1];
      ListLinesStop(xs[1..], k - 1);
      assert xs[1..][..k - 1] == xs[..k][1..];
      assert ItemLines(xs[..k]) == [ItemLine(xs[0])] + ItemLines(xs[1..][..k - 1]);
    }
  }

  /** When every field converts, the block has its fixed lines in order. */
  lemma {:induction false} FieldLinesAll(data: Value, fields: seq<(string, string)>)
    requires forall i :: 0 <= i < |fields| ==> Showable(Get(data, fields[i].1))
    ensures FieldLines(data, fields) == Printed(FieldLinesOf(data, fields), false)
    decreases |fields|
  {
    if |fields| > 0 {
      assert fields == [fields[0]] + fields[1..];
      FieldLinesAll(data, fields[1..]);
      assert FieldLinesOf(data, fields) == [FieldLine(data, fields[0])] + FieldLinesOf(data, fields[1..]);
    }
  }

  /** The fixed lines stop at the first field that does not convert, after the lines of the
      fields before it. */
  lemma {:induction false} FieldLinesStop(data: Value, fields: seq<(string, string)>, k: nat)
    requires k < |fields| && !Showable(Get(data, fields[k].1))
    requires forall i :: 0 <= i < k ==> Showable(Get(data, fields[i].1))
    ensures FieldLines(data, fields) == Printed(FieldLinesOf(data, fields[..k]), true)
    decreases k
  {
    if k > 0 {
      assert fields[1..][k - 1] == fields[k];
      assert forall i :: 0 <= i < k - 1 ==> fields[1..][i] == fields[i + 1];
      FieldLinesStop(data, fields[1..], k - 1);
      assert fields[1..][..k - 1] == fields[..k][1..];
      assert FieldLinesOf(data, fields[..k]) ==
        [FieldLine(data, fields[0])] + FieldLinesOf(data, fields[1..][..k - 1]);
    }
  }

  // ---------------------------------------------------------------------------------------
  // The five shapes, in order

  /** A falsy payload gives exactly the no-data line. */
  lemma RenderFalsy(data: Value, inspect: Value -> string)
    requires !Truthy(data)
    ensures Render(data, inspect) == Printed([NoDataLine], false)
  {
  }

  /** A body that does not decode falls into the no-data case; so do the decodable falsy
      payloads `null`, `false`, `0` and `""`. */
  lemma UndecodableGivesNoData(inspect: Value -> string)
    ensures Render(Decode(None), inspect) == Printed([NoDataLine], false)
    ensures Render(Decode(Some(Bool(false))), inspect) == Printed([NoDataLine], false)
    ensures Render(Decode(Some(Num("0"))), inspect) == Printed([NoDataLine], false)
    ensures Render(Decode(Some(Str(""))), inspect) == Printed([NoDataLine], false)
  {
  }

  /** An array of n elements that all print gives the header and then n item lines, in
      input order. */
  lemma RenderList(xs: seq<Value>, inspect: Value -> string)
    requires forall i :: 0 <= i < |xs| ==> !ItemFails(xs[i])
    ensures Render(Arr(xs), inspect) == Printed([ListHeader] + ItemLines(xs), false)
    ensures |Render(Arr(xs), inspect).lines| == 1 + |xs|
    ensures forall i :: 0 <= i < |xs| ==>
      Render(Arr(xs), inspect).lines[i + 1] ==
        "[" + Show(Get(xs[i], "id")) + "] " + Show(Get(xs[i], "title")) + " - $" + Show(Get(xs[i], "price"))
  {
    ListLinesAllItems(xs);
  }

  /** An array with an element that does not print gives the header and the lines of the
      elements before the first such one, then throws. */
  lemma RenderListStops(xs: seq<Value>, k: nat, inspect: Value -> string)
    requires k < |xs| && ItemFails(xs[k])
    requires forall i :: 0 <= i < k ==> !ItemFails(xs[i])
    ensures Render(Arr(xs), inspect) == Printed([ListHeader] + ItemLines(xs[..k]), true)
  {
    ListLinesStop(xs, k);
  }

  /** A record with a truthy title whose four fixed fields convert prints exactly the four
      fixed lines, and a fifth, the cut description, exactly when the description is a
      non-empty string. A truthy description of any other kind makes it throw after them. */
  lemma RenderDetail(data: Value, inspect: Value -> string)
    requires data.Obj? && Present(Get(data, "title"))
    ensures !HeadFails(data) ==>
      var p := Render(data, inspect);
      var d := Get(data, "description");
      && |p.lines| == (if Present(d) && d.value.Str? then 5 else 4)
      && p.lines[..4] == [ "Producto #" + Show(Get(data, "id")),
                           "Título: " + Show(Get(data, "title")),
                           "Precio: $" + Show(Get(data, "price")),
                           "Categoría: " + Show(Get(data, "category")) ]
      && (|p.lines| == 5 ==> p.lines[4] == DescriptionLine(d.value.s))
      && (p.threw <==> Present(d) && !d.value.Str?)
  {
    if !HeadFails(data) {
      FieldLinesAll(data, DetailFields);
    }
  }

  /** The ellipsis is appended whatever the length: a description of at most
      `DescriptionCut` characters is printed whole, a longer one is cut to exactly
      `DescriptionCut` characters. */
  lemma DescriptionAlwaysEllipsis(d: string)
    ensures |d| <= DescriptionCut ==> DescriptionLine(d) == DescriptionPrefix + d + Ellipsis
    ensures |d| > DescriptionCut ==>
      DescriptionLine(d) == DescriptionPrefix + d[..DescriptionCut] + Ellipsis
  {
    var line := DescriptionLine(d);
    var shown := if |d| <= DescriptionCut then |d| else DescriptionCut;
    assert line == line[..|DescriptionPrefix|] + line[|DescriptionPrefix|..|DescriptionPrefix| + shown]
      + line[|line| - |Ellipsis|..];
  }

  /** A record with a truthy title whose `k`-th fixed field is the first that does not
      convert prints the fixed lines before it and then throws, whatever the description. */
  lemma RenderDetailStops(data: Value, k: nat, inspect: Value -> string)
    requires data.Obj? && Present(Get(data, "title"))
    requires k < |DetailFields| && !Showable(Get(data, DetailFields[k].1))
    requires forall i :: 0 <= i < k ==> Showable(Get(data, DetailFields[i].1))
    ensures Render(data, inspect) == Printed(FieldLinesOf(data, DetailFields[..k]), true)
  {
    FieldLinesStop(data, DetailFields, k);
  }

  /** A truthy record without a truthy title but with a truthy id prints exactly one line
      naming the id, or throws before printing when the id does not convert. */
  lemma RenderDeletion(data: Value, inspect: Value -> string)
    requires data.Obj? && !Present(Get(data, "title")) && Present(Get(data, "id"))
    ensures Stringable(data.fields["id"]) ==>
      (Render(data, inspect) ==
       Printed(["Producto con ID " + ShowValue(data.fields["id"]) + " eliminado (simulado por la API)."], false))
    ensures !Stringable(data.fields["id"]) ==> Render(data, inspect) == Printed([], true)
  {
  }

  /** Any other truthy payload, an array excepted, prints the generic line. */
  lemma RenderGeneric(data: Value, inspect: Value -> string)
    requires Truthy(data) && !data.Arr?
    requires !Present(Get(data, "title")) && !Present(Get(data, "id"))
    ensures Render(data, inspect) == Printed(["Respuesta procesada: " + inspect(data)], false)
  {
  }

  /** The renderer throws on exactly these payloads: an array with an element that does not
      print; a titled record with a fixed field that does not convert, or whose truthy
      description is not a string; an untitled record whose truthy id does not convert. */
  lemma RenderThrowsExactly(data: Value, inspect: Value -> string)
    ensures Render(data, inspect).threw <==>
      || (data.Arr? && exists i :: 0 <= i < |data.elems| && ItemFails(data.elems[i]))
      || (data.Obj? && Present(Get(data, "title")) &&
          (HeadFails(data) ||
           (Present(Get(data, "description")) && !Get(data, "description").value.Str?)))
      || (data.Obj? && !Present(Get(data, "title")) && Present(Get(data, "id")) &&
          !Stringable(data.fields["id"]))
  {
  }

  /** Every payload, decodable or not, leads to at least one printed line, and the `catch`
      line appears exactly when the renderer threw. */
  lemma ReportNeverSilent(parsed: Option<Value>, inspect: Value -> string, errorText: string)
    ensures var p := Render(Decode(parsed), inspect);
      var out := Report(p, errorText);
      && |out| >= 1
      && out[..|p.lines|] == p.lines
      && (|out| == |p.lines| + 1 <==> p.threw)
  {
  }

  // ---------------------------------------------------------------------------------------
  // Examples

  /** Two products give the header and their two lines in input order. */
  lemma TwoProductsExample(a: Value, b: Value, inspect: Value -> string)
    requires !ItemFails(a) && !ItemFails(b)
    ensures Render(Arr([a, b]), inspect) == Printed([ListHeader, ItemLine(a), ItemLine(b)], false)
  {
    RenderList([a, b], inspect);
  }

  /** A 40-character description is printed whole and still followed by the ellipsis. */
  lemma ShortDescriptionExample(d: string)
    requires |d| == 40
    ensures DescriptionLine(d) == DescriptionPrefix + d + Ellipsis
    ensures |DescriptionLine(d)| == |DescriptionPrefix| + 43
  {
    assert d[..|d|] == d;
  }

  /** A record titled by an object with its own `toString` key prints no line and throws:
      the id line comes first and prints `undefined`, then the title does not convert. */
  lemma ToStringTitleExample(title: Value, inspect: Value -> string)
    requires title.Obj? && "toString" in title.fields
    ensures Render(Obj(map["title" := title]), inspect) == Printed(["Producto #undefined"], true)
  {
    var data := Obj(map["title" := title]);
    assert Get(data, "id") == None;
    assert Get(data, "title") == Some(title);
    assert DetailFields[0] == ("Producto #", "id") && DetailFields[1].1 == "title";
    assert !Showable(Get(data, DetailFields[1].1));
    RenderDetailStops(data, 1, inspect);
    assert FieldLine(data, DetailFields[0]) == "Producto #undefined";
    assert FieldLinesOf(data, DetailFields[..1]) == [FieldLine(data, DetailFields[0])];
  }

  /** A list whose second element has an object id prints the header and the first line,
      then throws. */
  lemma ToStringIdInListExample(a: Value, id: Value, inspect: Value -> string)
    requires !ItemFails(a) && id.Obj? && "toString" in id.fields
    ensures Render(Arr([a, Obj(map["id" := id])]), inspect) == Printed([ListHeader, ItemLine(a)], true)
  {
    var xs := [a, Obj(map["id" := id])];
    assert ItemFails(xs[1]);
    RenderListStops(xs, 1, inspect);
    assert xs[..1] == [a];
  }
}
