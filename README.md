# Command-line catalog client, modelled in Dafny

The client is one script, `index.js`. It reads a verb, a resource path and free-form
arguments from the command line and sends at most one HTTP request to the fixed catalog at
`https://fakestoreapi.com`. It then prints the decoded response for a human reader. All of
its decision-making is in two pure pieces, and this project models both:

- **The command interpreter** (`Interpreter.Interpret`). From `(method, fullResource, args)`
  it produces either one advisory outcome, which sends nothing (usage, POST only for
  `products`, missing POST fields, missing DELETE id, unsupported verb), or a `Send`
  carrying the `fetch` call to make: the URL, the method option, the headers and the body.
  The URL is built from `fullResource.split('/')`. `JsText` models that split, and the
  upper-casing of the verb.
- **The response renderer** (`Renderer.Render`). It is the model of `printResponse`. A decoded
  payload (a JSON-like `Value`, where a failed decode is `Null`) becomes the printed lines,
  chosen by checking in order: falsy, array, record with a truthy `title`, record with a
  truthy `id`, anything else.

Files: `wrappers.dfy` (Option), `jstext.dfy` (split, join, upper case), `interpreter.dfy`,
`renderer.dfy`.

Three behaviours of index.js are easy to miss, and the model keeps them:

- `printResponse` is not total. It throws a `TypeError`, caught by the `catch` of
  index.js:85-87 and printed as a request error, in these cases:
  - an array element that is `null` cannot be destructured (index.js:98);
  - a value placed in a template literal does not convert to text (index.js:99, 103-106,
    109). This happens when the value is an object with its own `toString` key, which a
    JSON body can hold and which is never callable, or an array holding such an object;
  - a truthy `description` that is not a string has no `substring` (index.js:107).

  The lines printed before the throw stay printed. So `Render` returns those lines together
  with a `threw` flag, and `Report` adds the line of the `catch`. `RenderThrowsExactly` names
  every case, and `ReportNeverSilent` shows that something is still always printed.
- The path is destructured from `split('/')` into two names. Only the text between the
  first and second `/` is the id, and anything after a second `/` is dropped
  (`TargetWithId`).
- DELETE tests the id for truthiness, so `products/`, whose id is empty, is refused just
  like `products` (`DeleteWithoutIdExample`).

## Model

| member | source | states |
|---|---|---|
| JsText.Split | index.js:17 | `split('/')` always yields at least one piece, and no piece contains the separator |
| JsText.SplitFirstPiece | index.js:17 | the first piece is a prefix of the path: all of it when there is one piece, and otherwise followed by a `/` |
| JsText.SplitSecond | index.js:17 | when there is a second piece, it runs from just after the first `/` to the next `/` or to the end |
| JsText.SplitNoSeparator | index.js:17 | a path without `/` splits into itself alone |
| JsText.SplitAtFirst | index.js:17 | the first piece is the text before the first `/`; the remaining pieces are the split of the text after it |
| JsText.JoinSplit | index.js:17 | joining the pieces with `/` gives back the original path (nothing is lost by the split itself) |
| JsText.SplitJoin | index.js:17 | splitting a `/`-join of separator-free pieces gives back those pieces |
| JsText.Upper | index.js:23 | `toUpperCase` never drops a character and maps each one to at most two |
| JsText.UpperOfCaseVariant | index.js:23 | every mix of ASCII upper and lower case of an upper-case word upper-cases to that word |
| JsText.UpperIdempotent | index.js:23 | upper-casing an already upper-cased verb changes nothing |
| Interpreter.FalsyWords | index.js:11 | a command-line word (tested at index.js:11, 37 and 59) is falsy exactly when it is absent or empty |
| Interpreter.ResourceNameIsFirstSegment | index.js:17 | the resource name `ResourceName` holds no `/` and is the text of the path up to its first `/`, or all of it |
| Interpreter.ResourceIdIsSecondSegment | index.js:17 | the id `ResourceId` is absent exactly when the path has no `/`; otherwise it holds no `/` and is the text from the first `/` to the second or to the end |
| Interpreter.TargetPathIsPrefix | index.js:18 | the URL `Target` is the origin, `/`, and a prefix of the typed path: nothing is added and only a tail is dropped |
| Interpreter.Interpret | index.js:11-70 | the usage outcome occurs exactly when the verb or the path is missing or empty; every request goes to the URL computed from the path; only a request to `products` carries a body |
| Interpreter.Advice | index.js:12-68 | the five messages of index.js:12, 32, 38, 60 and 68; the unsupported-verb message quotes the verb exactly as typed, right after its fixed prefix |
| Interpreter.AdviceDistinguishes | index.js:12-68 | two different advisory outcomes print different lines, including two unsupported verbs with different text |
| Interpreter.TargetWithoutId | index.js:17-18 | a path without `/` is all resource name, has no id, and targets `BASE_URL/path` |
| Interpreter.TargetWithId | index.js:17-18 | for `resource/id` followed by nothing or by `/…`: the name is `resource`, the id is `id`, the URL is `BASE_URL/resource` followed by `/id` only when the id is non-empty, and the text after a second `/` never appears |
| Interpreter.PathRoundTrip | index.js:17 | a path with at most one `/` is exactly its name, or its name, `/` and its id |
| Interpreter.MissingWordGivesUsage | index.js:11-14 | a missing or empty verb or path gives exactly the usage outcome and message, whatever the arguments |
| Interpreter.VerbCaseInsensitive | index.js:23 | any ASCII-case spelling of GET, POST or DELETE behaves exactly like the upper-case verb |
| Interpreter.VerbNormalised | index.js:23 | for a recognised verb, passing the upper-cased text gives the same outcome |
| Interpreter.OtherVerbUnsupported | index.js:67-69 | any other verb gives the unsupported outcome holding the original, un-normalised text, and sends nothing |
| Interpreter.GetAlwaysSends | index.js:24-27 | GET always sends to the computed URL with no method option, no headers and no body, with or without an id |
| Interpreter.PostOtherResourceRefused | index.js:29-34 | POST to a resource other than `products` is refused whatever the arguments, so the resource check comes first |
| Interpreter.PostMissingArgumentRefused | index.js:36-40 | POST to `products` with a missing or empty title, price or category is refused |
| Interpreter.PostSendsProduct | index.js:42-54 | otherwise POST sends `{title: args[0], price: parseFloat(args[1]), category: args[2]}` with `Content-Type: application/json` |
| Interpreter.ExtraArgumentsIgnored | index.js:36 | arguments after the third never change the outcome |
| Interpreter.PostWithIdTargetsId | index.js:29-54 | POST to `products/<id>` is allowed and targets the URL that ends with the id |
| Interpreter.DeleteNeedsId | index.js:57-65 | DELETE is refused exactly when the id is absent or empty; otherwise it sends DELETE without body to `BASE_URL/resource/id` |
| Interpreter.GetItemExample | index.js:17-27 | `GET products/3`, in any ASCII-case spelling, fetches `BASE_URL/products/3` |
| Interpreter.DeleteWithoutIdExample | index.js:57-62 | `DELETE products` and `DELETE products/` are refused |
| Interpreter.DeleteItemExample | index.js:17-65 | `DELETE products/5/x` deletes `BASE_URL/products/5` |
| Interpreter.PostShirtExample | index.js:36-54 | `POST products Shirt 19.99 clothing` sends the shirt record as JSON to `BASE_URL/products` |
| Renderer.FalsyValues | index.js:91 | a payload (tested at index.js:91, 101, 107 and 108) is falsy exactly when it is `null`, `false`, `0`, `NaN` or `""` |
| Renderer.StringableObjects | index.js:99-109 | in a template literal an object converts exactly when it has no own `toString` key, and then reads `[object Object]`; an array converts exactly when each of its non-null elements does |
| Renderer.ShowArrayJoins | index.js:99-109 | an array in a template literal reads as its elements' texts joined with `,`, with `null` as nothing, and an empty array as nothing |
| Renderer.ItemLine | index.js:99 | an element's line starts with its id in brackets and ends with ` - $` and its price |
| Renderer.ListLines | index.js:98-100 | the walk prints at most one line per element and throws exactly when some element is `null` or has an `id`, `title` or `price` that does not convert |
| Renderer.ListLinesAllItems | index.js:98-100 | when every element prints, the walk prints `[id] title - $price` for each one, in input order |
| Renderer.ListLinesStop | index.js:98-99 | at the first element that does not print, the walk throws, after the lines of the elements before it |
| Renderer.FieldLines | index.js:103-106 | the fixed lines print at most one line per field and throw exactly when some field does not convert |
| Renderer.FieldLinesAll | index.js:103-106 | when every field converts, each label is printed with its field's text, in order |
| Renderer.FieldLinesStop | index.js:103-106 | at the first field that does not convert, the block throws, after the lines of the fields before it |
| Renderer.DetailLines | index.js:102-107 | the detail block prints at most five lines and throws exactly when a fixed field does not convert or the truthy description is not a string |
| Renderer.DescriptionLine | index.js:107 | the description line is the prefix, the first min(100, length) characters of the description, and `...` |
| Renderer.Render | index.js:90-113 | only an array or an object can make the renderer throw; an array always prints the list header first; any payload that does not throw prints at least one line |
| Renderer.Decode | index.js:76-81 | a body that fails to parse becomes `null`, so the decoded payload is falsy exactly when the parse failed or gave a falsy value |
| Renderer.Report | index.js:85-87 | the output is the renderer's lines, followed by the `catch` line with the error message exactly when the renderer threw |
| Renderer.RenderFalsy | index.js:91-94 | a falsy payload prints exactly the no-data line |
| Renderer.UndecodableGivesNoData | index.js:76-81 | a body that fails to decode, and the payloads `false`, `0` and `""`, print exactly the no-data line |
| Renderer.RenderList | index.js:96-100 | an array of n elements that all print gives 1 + n lines: the header, then each element's line in order |
| Renderer.RenderListStops | index.js:96-100 | an array with an element that does not print gives the header and the lines before the first such element, then throws |
| Renderer.RenderDetail | index.js:101-107 | a record with a truthy title whose fixed fields convert prints exactly the four fixed lines, plus the description line exactly when the description is a non-empty string; another truthy description throws after the four lines |
| Renderer.RenderDetailStops | index.js:101-106 | a record with a truthy title prints the fixed lines before its first field that does not convert, then throws, whatever the description |
| Renderer.DescriptionAlwaysEllipsis | index.js:107 | a description of at most 100 characters is printed whole and a longer one cut to 100; the ellipsis follows in both cases |
| Renderer.RenderDeletion | index.js:108-109 | a record without a truthy title but with a truthy id prints exactly one line naming the id, or throws without printing when the id does not convert |
| Renderer.RenderGeneric | index.js:110-111 | any other truthy non-array payload prints exactly the generic line |
| Renderer.RenderThrowsExactly | index.js:90-113 | the renderer throws exactly for an array with an element that does not print, a titled record with a fixed field that does not convert or a truthy non-string description, and an untitled record whose truthy id does not convert |
| Renderer.ReportNeverSilent | index.js:83-87 | for every decode result at least one line is printed, and the error line of the `catch` follows exactly when the renderer threw |
| Renderer.TwoProductsExample | index.js:96-100 | two elements that print give the header and their two lines in input order |
| Renderer.ShortDescriptionExample | index.js:107 | a 40-character description is printed whole and still followed by `...` |
| Renderer.ToStringTitleExample | index.js:101-104 | `{"title": {"toString": …}}` prints `Producto #undefined` and then throws |
| Renderer.ToStringIdInListExample | index.js:96-99 | a list whose second element has a `toString`-keyed id prints the header and the first line, then throws |

## Left out

- Transport: the `fetch` calls, `await response.text()` and the transport-error path of the `catch` (index.js:26, 50-54, 64, 73, 85-87) are network I/O. The model stops at the `Send` outcome.
- The raw-body echo line (index.js:74) is a plain pass-through print. The capture of `process.argv` (index.js:4) becomes the three inputs of `Interpret`. The console sinks become returned lines.
- `JSON.parse` and `JSON.stringify` are library code. The payload is given already decoded: `Decode` takes `None` for a parse that threw. The POST body is kept as a record, and its serialisation is not modelled. In particular, `JSON.stringify` writes a NaN price as `null`.
- `parseFloat` is floating-point parsing. `Price` keeps only the argument text it is applied to.
- Number formatting: a JSON number is carried as the text JavaScript prints for it. Its truthiness is read from that text (`"0"` and `"NaN"` are falsy).
- The console's object inspection (index.js:111) is the parameter `inspect`. The text of the runtime's `TypeError` message is the parameter `errorText` of `Report`.
- The process exit status (always success) is not modelled, because there is no process in the model.
- JsText.Upper: implements ASCII case mapping plus the only other characters whose upper case is spelt with letters of GET, POST and DELETE (`ß`, `ſ`, `ﬅ`, `ﬆ`). Every other character is kept unchanged. This does not change which verb is recognised, but it is not the full Unicode mapping of `toUpperCase`.
- Renderer.DescriptionLine: cuts at 100 characters (Unicode scalar values), whereas `substring` counts UTF-16 code units. The two differ on text outside the Basic Multilingual Plane.
- Render: does not promise a printed line for every payload, because `printResponse` can throw before printing anything (an untitled record whose truthy id does not convert, index.js:109). The `catch` line still makes the output non-empty (`ReportNeverSilent`).
- Conversion to text: the only conversion failure in the model is the one a JSON value can cause, an own `toString` key. An own `valueOf` key alone does not change the conversion, because the inherited `toString` is tried first.
