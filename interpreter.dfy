/** The command interpreter of `main` in index.js: from the command-line verb, the resource
    path and the free-form arguments to either one advisory message or a description of the
    single HTTP request to send. Sending it is the transport's business and is not modelled. */
module Interpreter {
  import opened Wrappers
  import opened JsText

  /** The fixed origin of the remote catalog. */
  const BaseUrl := "https://fakestoreapi.com"

  /** The only resource that may be created with POST. */
  const Products := "products"

  /** The header attached to a POST. */
  const JsonContentType := ("Content-Type", "application/json")

  /** JavaScript truthiness of a command-line word: absent (`undefined`) and the empty
      string are both falsy. */
  predicate Truthy(w: Option<string>) { w.Some? && w.value != "" }

  /** `args[i]`, or `undefined` past the end. */
  function Arg(args: seq<string>, i: nat): Option<string>
  {
    if i < |args| then Some(args[i]) else None
  }

  /** The resource name: the first piece of `fullResource.split('/')`. */
  function ResourceName(fullResource: string): string
  {
    Split(fullResource, '/')[0]
  }

  /** The resource id: the second piece of `fullResource.split('/')`, absent when there is
      no separator. */
  function ResourceId(fullResource: string): Option<string>
  {
    var parts := Split(fullResource, '/');
    if |parts| > 1 then Some(parts[1]) else None
  }

  /** The target URL: the origin, the resource name and, when the id is truthy, the id. */
  function Target(fullResource: string): string
  {
    var id := ResourceId(fullResource);
    BaseUrl + "/" + ResourceName(fullResource) + (if Truthy(id) then "/" + id.value else "")
  }

  /** The verbs the interpreter sends. */
  datatype Verb = Get | Post | Delete

  /** `parseFloat(text)`: the JavaScript number parsed from the price argument. The number
      itself is floating-point and is not modelled; only the text it comes from is kept. */
  datatype Price = ParseFloat(text: string)

  /** The record a POST creates. */
  datatype NewProduct = NewProduct(title: string, price: Price, category: string)

  /** One call of `fetch(url, options)`: `methodOption` is the method option (absent: the
      default GET), `headers` the header list and `body` the record sent as JSON. */
  datatype Request = Request(
    url: string,
    methodOption: Option<Verb>,
    headers: seq<(string, string)>,
    body: Option<NewProduct>)

  /** What one invocation decides: an advisory message and no request, or one request. */
  datatype Outcome =
    | Usage
    | PostOnlyProducts
    | PostMissingFields
    | DeleteMissingId
    | Unsupported(verbText: string)
    | Send(request: Request)

  /** The interpreter, guard by guard in the order of index.js. */
  function Interpret(methodArg: Option<string>, fullResource: Option<string>, args: seq<string>): (o: Outcome)
    ensures o.Usage? <==> !Truthy(methodArg) || !Truthy(fullResource)
    ensures o.Send? ==> Truthy(fullResource) && o.request.url == Target(fullResource.value)
    ensures o.Send? && o.request.body.Some? ==> ResourceName(fullResource.value) == Products
  {
    if !Truthy(methodArg) || !Truthy(fullResource) then Usage
    else
      var m := methodArg.value;
      var fr := fullResource.value;
      var url := Target(fr);
      var verb := Upper(m);
      if verb == "GET" then
        Send(Request(url, None, [], None))
      else if verb == "POST" then
        if ResourceName(fr) != Products then PostOnlyProducts
        else
          var title, price, category := Arg(args, 0), Arg(args, 1), Arg(args, 2);
          if !Truthy(title) || !Truthy(price) || !Truthy(category) then PostMissingFields
          else
            var product := NewProduct(title.value, ParseFloat(price.value), category.value);
            Send(Request(url, Some(Post), [JsonContentType], Some(product)))
      else if verb == "DELETE" then
        if !Truthy(ResourceId(fr)) then DeleteMissingId
        else Send(Request(url, Some(Delete), [], None))
      else Unsupported(m)
  }

  /** The text of the unsupported-method message (the `default` branch of the switch) before
      the method. */
  const UnsupportedPrefix := "El método \""

  /** The line printed for an outcome that sends nothing. */
  function Advice(o: Outcome): (line: string)
    requires !o.Send?
    ensures o.Unsupported? ==>
      |line| >= |UnsupportedPrefix| + |o.verbText| &&
      line[|UnsupportedPrefix|..|UnsupportedPrefix| + |o.verbText|] == o.verbText
  {
    match o
    case Usage => "Por favor, escribí: <METHOD> <RESOURCE> [args]"
    case PostOnlyProducts => "POST solo está disponible para \"products\""
    case PostMissingFields => "Para crear un producto necesito: <title> <price> <category>"
    case DeleteMissingId => "Para borrar un producto, usá: DELETE products/<productId>"
    case Unsupported(m) => UnsupportedPrefix + m + "\" no está soportado."
  }

  /** The five messages are pairwise different, and the unsupported-method message differs
      for different methods: the printed line tells which guard stopped the invocation. */
  lemma AdviceDistinguishes(o1: Outcome, o2: Outcome)
    requires !o1.Send? && !o2.Send? && o1 != o2
    ensures Advice(o1) != Advice(o2)
  {
    if o1.Unsupported? && o2.Unsupported? {
      var n := |UnsupportedPrefix|;
      if |o1.verbText| == |o2.verbText| {
        assert Advice(o1)[n..n + |o1.verbText|] == o1.verbText;
        assert Advice(o2)[n..n + |o2.verbText|] == o2.verbText;
      } else {
        assert |Advice(o1)| != |Advice(o2)|;
      }
    } else {
      AdviceSignature(o1);
      AdviceSignature(o2);
    }
  }

  /** The length of each fixed message. */
  function FixedLength(o: Outcome): nat
    requires !o.Send? && !o.Unsupported?
  {
    match o
    case Usage => 46
    case PostOnlyProducts => 41
    case PostMissingFields => 59
    case DeleteMissingId => 57
  }

  /** The unsupported-method message ends with a full stop, the fixed ones do not and have
      pairwise different lengths. */
  lemma AdviceSignature(o: Outcome)
    requires !o.Send?
    ensures |Advice(o)| > 0
    ensures Advice(o)[|Advice(o)| - 1] == '.' <==> o.Unsupported?
    ensures !o.Unsupported? ==> |Advice(o)| == FixedLength(o)
  {
  }

  /** Truthiness of a command-line word: only an absent word and the empty word are falsy. */
  lemma FalsyWords(w: Option<string>)
    ensures !Truthy(w) <==> w == None || w == Some("")
  {
  }

  // ---------------------------------------------------------------------------------------
  // The resource path and the URL

  /** The resource name is the text before the first separator, or all of the path when it
      has none. */
  lemma ResourceNameIsFirstSegment(fullResource: string)
    ensures var name := ResourceName(fullResource);
      && '/' !in name
      && name <= fullResource
      && (name == fullResource || (|name| < |fullResource| && fullResource[|name|] == '/'))
  {
    SplitFirstPiece(fullResource, '/');
  }

  /** The id is absent exactly when the path has no separator; otherwise it is the text
      from just after the first separator up to the second one, or to the end. */
  lemma ResourceIdIsSecondSegment(fullResource: string)
    ensures ResourceId(fullResource).None? <==> '/' !in fullResource
    ensures ResourceId(fullResource).Some? ==>
      var name, id := ResourceName(fullResource), ResourceId(fullResource).value;
      var k := |name| + 1 + |id|;
      && '/' !in id
      && k <= |fullResource|
      && fullResource[..k] == name + "/" + id
      && (k == |fullResource| || fullResource[k] == '/')
  {
    var parts := Split(fullResource, '/');
    SplitFirstPiece(fullResource, '/');
    if |parts| > 1 {
      SplitSecond(fullResource, '/');
    }
  }

  /** The URL is the origin, a separator and a prefix of the typed path: nothing is added,
      only the text from a second separator on, or a lone trailing separator, is dropped. */
  lemma TargetPathIsPrefix(fullResource: string)
    ensures BaseUrl + "/" <= Target(fullResource)
    ensures Target(fullResource)[|BaseUrl| + 1..] <= fullResource
  {
    ResourceNameIsFirstSegment(fullResource);
    ResourceIdIsSecondSegment(fullResource);
    var name, id := ResourceName(fullResource), ResourceId(fullResource);
    var path := name + (if Truthy(id) then "/" + id.value else "");
    assert Target(fullResource) == BaseUrl + "/" + path;
    assert (BaseUrl + "/" + path)[|BaseUrl| + 1..] == path;
  }

  /** A path without a separator is all resource name: no id, and the URL is the origin
      followed by the path. */
  lemma TargetWithoutId(fullResource: string)
    requires '/' !in fullResource
    ensures ResourceName(fullResource) == fullResource
    ensures ResourceId(fullResource) == None
    ensures Target(fullResource) == BaseUrl + "/" + fullResource
  {
    SplitNoSeparator(fullResource, '/');
  }

  /** A path `resource/id` followed by nothing, or by a second separator and any text:
      the id is the text between the first two separators, the URL carries `/id` only when
      the id is non-empty, and the text after the second separator is dropped. */
  lemma TargetWithId(resource: string, id: string, tail: string)
    requires '/' !in resource && '/' !in id
    requires tail == "" || tail[0] == '/'
    ensures ResourceName(resource + "/" + id + tail) == resource
    ensures ResourceId(resource + "/" + id + tail) == Some(id)
    ensures Target(resource + "/" + id + tail) ==
      BaseUrl + "/" + resource + (if id == "" then "" else "/" + id)
  {
    SplitWithId(resource, id, tail);
  }

  /** The split behind `TargetWithId`: the first two pieces are the resource and the id. */
  lemma SplitWithId(resource: string, id: string, tail: string)
    requires '/' !in resource && '/' !in id
    requires tail == "" || tail[0] == '/'
    ensures |Split(resource + "/" + id + tail, '/')| > 1
    ensures Split(resource + "/" + id + tail, '/')[0] == resource
    ensures Split(resource + "/" + id + tail, '/')[1] == id
  {
    var fr := resource + "/" + id + tail;
    var k := |resource|;
    var rest := id + tail;
    assert fr[..k] == resource;
    assert fr[k + 1..] == rest;
    SplitAtFirst(fr, '/', k);
    if tail == "" {
      assert rest == id;
      SplitNoSeparator(id, '/');
    } else {
      assert rest[..|id|] == id;
      SplitAtFirst(rest, '/', |id|);
    }
  }

  /** A path with at most one separator is recovered from its name and id, joined with
      the separator. */
  lemma PathRoundTrip(fullResource: string)
    requires |Split(fullResource, '/')| <= 2
    ensures ResourceId(fullResource).None? ==> fullResource == ResourceName(fullResource)
    ensures ResourceId(fullResource).Some? ==>
      fullResource == ResourceName(fullResource) + "/" + ResourceId(fullResource).value
  {
    JoinSplit(fullResource, '/');
    var parts := Split(fullResource, '/');
    if |parts| == 2 {
      assert Join(parts[1..], '/') == parts[1];
    }
  }

  // ---------------------------------------------------------------------------------------
  // The guards

  /** A missing or empty verb or resource gives exactly the usage message, whatever the
      arguments. */
  lemma MissingWordGivesUsage(methodArg: Option<string>, fullResource: Option<string>, args: seq<string>)
    requires methodArg.None? || methodArg == Some("") || fullResource.None? || fullResource == Some("")
    ensures Interpret(methodArg, fullResource, args) == Usage
    ensures Advice(Usage) == "Por favor, escribí: <METHOD> <RESOURCE> [args]"
  {
  }

  /** The verb is matched case-insensitively: every ASCII-case variant of GET, POST or DELETE
      behaves like the upper-case word. */
  lemma VerbCaseInsensitive(m: string, w: string, fullResource: Option<string>, args: seq<string>)
    requires w == "GET" || w == "POST" || w == "DELETE"
    requires CaseVariant(m, w)
    ensures Interpret(Some(m), fullResource, args) == Interpret(Some(w), fullResource, args)
  {
    UpperOfCaseVariant(m, w);
    UpperOfCaseVariant(w, w);
  }

  /** Upper-casing a recognised verb first changes nothing. */
  lemma VerbNormalised(m: string, fullResource: Option<string>, args: seq<string>)
    requires Upper(m) == "GET" || Upper(m) == "POST" || Upper(m) == "DELETE"
    ensures Interpret(Some(m), fullResource, args) == Interpret(Some(Upper(m)), fullResource, args)
  {
    UpperIdempotent(m);
  }

  /** Any other verb gives the unsupported message, which quotes the verb as typed. */
  lemma OtherVerbUnsupported(m: string, fullResource: string, args: seq<string>)
    requires m != "" && fullResource != ""
    requires Upper(m) != "GET" && Upper(m) != "POST" && Upper(m) != "DELETE"
    ensures Interpret(Some(m), Some(fullResource), args) == Unsupported(m)
    ensures Advice(Unsupported(m)) == "El método \"" + m + "\" no está soportado."
  {
  }

  /** GET always sends, to the computed URL, with no method option, headers or body. */
  lemma GetAlwaysSends(m: string, fullResource: string, args: seq<string>)
    requires Upper(m) == "GET" && fullResource != ""
    ensures Interpret(Some(m), Some(fullResource), args) ==
      Send(Request(Target(fullResource), None, [], None))
  {
  }

  /** POST to any resource but `products` is refused before the arguments are looked at. */
  lemma PostOtherResourceRefused(m: string, fullResource: string, args: seq<string>)
    requires Upper(m) == "POST" && fullResource != ""
    requires ResourceName(fullResource) != Products
    ensures Interpret(Some(m), Some(fullResource), args) == PostOnlyProducts
  {
  }

  /** POST to `products` with a missing or empty title, price or category is refused. */
  lemma PostMissingArgumentRefused(m: string, fullResource: string, args: seq<string>)
    requires Upper(m) == "POST" && fullResource != ""
    requires ResourceName(fullResource) == Products
    requires |args| < 3 || args[0] == "" || args[1] == "" || args[2] == ""
    ensures Interpret(Some(m), Some(fullResource), args) == PostMissingFields
  {
  }

  /** POST to `products` with three non-empty arguments sends the record built from them,
      as JSON, to the computed URL. */
  lemma PostSendsProduct(m: string, fullResource: string, args: seq<string>)
    requires Upper(m) == "POST" && fullResource != ""
    requires ResourceName(fullResource) == Products
    requires |args| >= 3 && args[0] != "" && args[1] != "" && args[2] != ""
    ensures Interpret(Some(m), Some(fullResource), args) ==
      Send(Request(Target(fullResource), Some(Post), [JsonContentType],
                   Some(NewProduct(args[0], ParseFloat(args[1]), args[2]))))
  {
  }

  /** Arguments beyond the third never change the outcome. */
  lemma ExtraArgumentsIgnored(methodArg: Option<string>, fullResource: Option<string>, args: seq<string>, extra: seq<string>)
    requires |args| >= 3
    ensures Interpret(methodArg, fullResource, args + extra) == Interpret(methodArg, fullResource, args)
  {
    assert forall i :: 0 <= i < 3 ==> Arg(args + extra, i) == Arg(args, i);
  }

  /** POST to `products/<id>` is allowed and targets the URL with the id. */
  lemma PostWithIdTargetsId(m: string, id: string, tail: string, args: seq<string>)
    requires Upper(m) == "POST"
    requires '/' !in id && id != "" && (tail == "" || tail[0] == '/')
    requires |args| >= 3 && args[0] != "" && args[1] != "" && args[2] != ""
    ensures Interpret(Some(m), Some(Products + "/" + id + tail), args) ==
      Send(Request(BaseUrl + "/" + Products + "/" + id, Some(Post), [JsonContentType],
                   Some(NewProduct(args[0], ParseFloat(args[1]), args[2]))))
  {
    var path := Products + "/" + id + tail;
    TargetWithId(Products, id, tail);
    PostSendsProduct(m, path, args);
  }

  /** DELETE is refused exactly when the id is absent or empty; otherwise it sends DELETE,
      without a body, to the URL that ends with the id. */
  lemma DeleteNeedsId(m: string, fullResource: string, args: seq<string>)
    requires Upper(m) == "DELETE" && fullResource != ""
    ensures Interpret(Some(m), Some(fullResource), args) == DeleteMissingId <==>
      !Truthy(ResourceId(fullResource))
    ensures Truthy(ResourceId(fullResource)) ==>
      Interpret(Some(m), Some(fullResource), args) ==
        Send(Request(Target(fullResource), Some(Delete), [], None))
    ensures Truthy(ResourceId(fullResource)) ==>
      Target(fullResource) == BaseUrl + "/" + ResourceName(fullResource) + "/" + ResourceId(fullResource).value
  {
  }

  /** `GET products/3`, in any spelling of GET, fetches item 3. */
  lemma GetItemExample(m: string)
    requires CaseVariant(m, "GET")
    ensures Interpret(Some(m), Some(Products + "/3"), []) ==
      Send(Request(BaseUrl + "/" + Products + "/3", None, [], None))
  {
    UpperOfCaseVariant(m, "GET");
    TargetWithId(Products, "3", "");
    assert Products + "/" + "3" + "" == Products + "/3";
    GetAlwaysSends(m, Products + "/3", []);
  }

  /** `DELETE products` and `DELETE products/` are refused. */
  lemma DeleteWithoutIdExample(m: string, path: string)
    requires CaseVariant(m, "DELETE")
    requires path == Products || path == Products + "/"
    ensures Interpret(Some(m), Some(path), []) == DeleteMissingId
  {
    UpperOfCaseVariant(m, "DELETE");
    if path == Products {
      TargetWithoutId(path);
    } else {
      TargetWithId(Products, "", "");
      assert Products + "/" + "" + "" == path;
    }
    DeleteNeedsId(m, path, []);
  }

  /** `DELETE products/5/x` deletes item 5: the text after the second separator is dropped. */
  lemma DeleteItemExample(m: string)
    requires CaseVariant(m, "DELETE")
    ensures Interpret(Some(m), Some(Products + "/5/x"), []) ==
      Send(Request(BaseUrl + "/" + Products + "/5", Some(Delete), [], None))
  {
    UpperOfCaseVariant(m, "DELETE");
    TargetWithId(Products, "5", "/x");
    assert Products + "/" + "5" + "/x" == Products + "/5/x";
    DeleteNeedsId(m, Products + "/5/x", []);
  }

  /** `POST products Shirt 19.99 clothing` sends the shirt. */
  lemma PostShirtExample(m: string, path: string)
    requires CaseVariant(m, "POST") && path == Products
    ensures Interpret(Some(m), Some(path), ["Shirt", "19.99", "clothing"]) ==
      Send(Request(BaseUrl + "/" + Products, Some(Post), [JsonContentType],
                   Some(NewProduct("Shirt", ParseFloat("19.99"), "clothing"))))
  {
    UpperOfCaseVariant(m, "POST");
    TargetWithoutId(path);
    PostSendsProduct(m, path, ["Shirt", "19.99", "clothing"]);
  }
}
