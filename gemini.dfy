/**
 * The image-edit service: template lookup, the prompt compiler that fills a
 * template's `${name}` placeholders with parameter values, the clean-up of
 * the uploaded image's data URL, and the interpretation of the model's reply.
 * The network call is a function parameter (`generate`), the API key an
 * optional input, and rendering a number as text (`String(number)`) a
 * function parameter `numText`.
 */
module GeminiService {
  import opened Wrappers
  import opened Strings
  import opened Patterns
  import opened Types
  import opened Records
  import Constants

  /** What the service throws: an `Error` with its message, or some other value that may carry a `message` field. */
  datatype Thrown = ErrorValue(message: string) | OtherValue(field: Option<string>)

  /** The words the editor looks for in an error message to recognise a key problem. */
  const KeyMarker := "API Key"
  const MissingKeyMessage := KeyMarker + " is missing. Please set REACT_APP_GEMINI_API_KEY or allow insecure env access for demo."
  const InvalidTemplateMessage := "Invalid Template ID"
  const NoContentMessage := "No content generated."
  const DeclinedPrefix := "Model declined to generate image: "
  const NoImageMessage := "No image data found in response."
  const PromptSuffix := " \n\nOutput only the edited image."
  const ModelName := "gemini-2.5-flash-image"
  const ImageMimeType := "image/jpeg"

  /** `getTemplateById`: the registry entry with that id. */
  function GetTemplateById(id: TemplateId): (r: Option<EditTemplate>)
    ensures r == Some(Constants.TemplateOf(id)) && r.value.id == id
  {
    Constants.LookupSucceeds(id);
    Constants.SlotFinds(id);
    FindTemplate(Constants.TEMPLATES, id)
  }

  // ---------------------------------------------------------------------------
  // The prompt compiler
  // ---------------------------------------------------------------------------

  /** `String(value)`. */
  function ValueText(v: ParamValue, numText: real -> string): string {
    match v
    case Str(s) => s
    case Num(x) => numText(x)
    case Bool(b) => if b then "true" else "false"
  }

  /**
   * The prompt after the entries, in order, each replaced the first
   * occurrence of its `${key}` in the prompt built so far with its value.
   */
  function Compile(prompt: string, entries: Record, numText: real -> string): string
    decreases |entries|
  {
    if entries == [] then prompt
    else Compile(Replace(prompt, Placeholder(entries[0].0), ValueText(entries[0].1, numText)), entries[1..], numText)
  }

  /** `constructPrompt`: start from the template's pattern and substitute each entry of `params` in turn. */
  method ConstructPrompt(template: EditTemplate, params: Record, numText: real -> string) returns (prompt: string)
    ensures prompt == Compile(template.SystemPromptTemplate(), params, numText)
  {
    prompt := template.SystemPromptTemplate();
    var i := 0;
    while i < |params|
      invariant 0 <= i <= |params|
      invariant Compile(prompt, params[i..], numText) == Compile(template.SystemPromptTemplate(), params, numText)
    {
      var (key, value) := params[i];
      assert params[i..][1..] == params[i + 1..];
      prompt := Replace(prompt, Placeholder(key), ValueText(value, numText));
      i := i + 1;
    }
  }

  /** A key for which the prompt holds no `${key}` changes nothing. */
  lemma CompileSkipsAbsent(prompt: string, key: string, v: ParamValue, rest: Record, numText: real -> string)
    requires !Includes(prompt, Placeholder(key))
    ensures Compile(prompt, [(key, v)] + rest, numText) == Compile(prompt, rest, numText)
  {
    assert ([(key, v)] + rest)[1..] == rest;
  }

  /** Keys hold no closing brace and values render without `$`. */
  predicate Plain(entries: Record, numText: real -> string) {
    forall e :: e in entries ==> '}' !in e.0 && '$' !in ValueText(e.1, numText)
  }

  lemma PlainValues(entries: Record, numText: real -> string)
    requires Plain(entries, numText)
    ensures forall k :: k in AsMap(entries) ==> '$' !in ValueText(AsMap(entries)[k], numText)
  {
    forall k | k in AsMap(entries) ensures '$' !in ValueText(AsMap(entries)[k], numText) {
      GetFound(entries, k);
    }
  }

  /** The text each key of a record is filled with. */
  function Texts(entries: Record, numText: real -> string): (m: map<string, Text>)
    requires Plain(entries, numText)
    ensures m.Keys == AsMap(entries).Keys
    ensures forall k :: k in m ==> m[k] == ValueText(AsMap(entries)[k], numText)
  {
    PlainValues(entries, numText);
    map k | k in AsMap(entries) :: ValueText(AsMap(entries)[k], numText)
  }

  /** Dropping the first entry keeps the keys distinct and the entries plain. */
  lemma PlainTail(entries: Record, numText: real -> string)
    requires entries != [] && DistinctKeys(entries) && Plain(entries, numText)
    ensures DistinctKeys(entries[1..]) && Plain(entries[1..], numText)
    ensures '}' !in entries[0].0 && '$' !in ValueText(entries[0].1, numText)
  {
    assert entries[0] in entries;
    forall e | e in entries[1..] ensures e in entries { }
  }

  /** Splitting off the first entry: its key is not among the rest, and its text joins theirs. */
  lemma TextsCons(entries: Record, numText: real -> string)
    requires entries != [] && DistinctKeys(entries) && Plain(entries, numText)
    ensures Plain(entries[1..], numText) && '$' !in ValueText(entries[0].1, numText)
    ensures var t: Text := ValueText(entries[0].1, numText);
      entries[0].0 !in Texts(entries[1..], numText) &&
      Texts(entries, numText) == map[entries[0].0 := t] + Texts(entries[1..], numText)
  {
    PlainTail(entries, numText);
    AsMapCons(entries);
    var k := entries[0].0;
    var t: Text := ValueText(entries[0].1, numText);
    var m, m1 := Texts(entries, numText), Texts(entries[1..], numText);
    var m2 := map[k := t] + m1;
    assert m.Keys == m2.Keys;
    forall x | x in m ensures m[x] == m2[x] {
      if x != k {
        assert m[x] == ValueText(AsMap(entries[1..])[x], numText);
      }
    }
  }

  /**
   * Compiling a pattern with distinct placeholder names fills every
   * placeholder named by an entry with that entry's value and leaves the
   * others as they are: replacing first occurrences one after another is
   * the same as filling all placeholders at once.
   */
  lemma {:induction false} CompileRenders(ps: seq<Piece>, entries: Record, numText: real -> string)
    requires HolesDistinct(ps) && DistinctKeys(entries) && Plain(entries, numText)
    ensures Compile(Join(ps), entries, numText) == Render(ps, Texts(entries, numText))
    decreases |entries|
  {
    if entries == [] {
      assert Subst(ps, map[]) == ps;
    } else {
      PlainTail(entries, numText);
      TextsCons(entries, numText);
      var k := entries[0].0;
      var t: Text := ValueText(entries[0].1, numText);
      ReplaceFills(ps, k, t);
      SubstKeepsDistinct(ps, map[k := t]);
      CompileRenders(Subst(ps, map[k := t]), entries[1..], numText);
      SubstCompose(ps, map[k := t], Texts(entries[1..], numText));
    }
  }

  /** With distinct keys and plain values, the compiled prompt does not depend on the order of the entries. */
  lemma CompileOrderFree(ps: seq<Piece>, e1: Record, e2: Record, numText: real -> string)
    requires HolesDistinct(ps) && DistinctKeys(e1) && DistinctKeys(e2) && multiset(e1) == multiset(e2)
    requires Plain(e1, numText)
    ensures Plain(e2, numText)
    ensures Compile(Join(ps), e1, numText) == Compile(Join(ps), e2, numText)
  {
    forall e | e in e2 ensures e in e1 {
      assert e in multiset(e2);
    }
    CompileRenders(ps, e1, numText);
    CompileRenders(ps, e2, numText);
    AsMapOfPermutation(e1, e2);
  }

  /** A placeholder whose name has no entry stays in the compiled prompt verbatim. */
  lemma UnfilledStays(ps: seq<Piece>, entries: Record, numText: real -> string, j: nat)
    requires HolesDistinct(ps) && DistinctKeys(entries) && Plain(entries, numText)
    requires j < |ps| && ps[j].Hole? && ps[j].key !in Records.Keys(entries)
    ensures Includes(Compile(Join(ps), entries, numText), Placeholder(ps[j].key))
  {
    CompileRenders(ps, entries, numText);
    var filled := Subst(ps, Texts(entries, numText));
    assert filled[j] == ps[j];
    HoleOccurs(filled, j);
  }

  /** When every placeholder has an entry, the compiled prompt holds no `$` and so no placeholder. */
  lemma CompileComplete(ps: seq<Piece>, entries: Record, numText: real -> string)
    requires HolesDistinct(ps) && DistinctKeys(entries) && Plain(entries, numText)
    requires forall k :: k in HoleKeys(ps) ==> k in Records.Keys(entries)
    ensures '$' !in Compile(Join(ps), entries, numText)
  {
    CompileRenders(ps, entries, numText);
    RenderComplete(ps, Texts(entries, numText));
  }

  /** For a registry template, the compiled prompt is its instruction with the entries filled in. */
  lemma RegistryPrompt(id: TemplateId, entries: Record, numText: real -> string)
    requires DistinctKeys(entries) && Plain(entries, numText)
    ensures var t := Constants.TemplateOf(id);
      Compile(t.SystemPromptTemplate(), entries, numText) == Render(Pieces(t.instruction), Texts(entries, numText))
  {
    var t := Constants.TemplateOf(id);
    Constants.TemplateClosed(id);
    InstructionHolesDistinct(t.instruction);
    CompileRenders(Pieces(t.instruction), entries, numText);
  }

  // ---------------------------------------------------------------------------
  // The image payload
  // ---------------------------------------------------------------------------

  /** `s.split(c)` for a one-character separator. */
  function Split(s: string, c: char): (parts: seq<string>)
    ensures |parts| >= 1 && forall i :: 0 <= i < |parts| ==> c !in parts[i]
  {
    if s == [] then [""]
    else
      var rest := Split(s[1..], c);
      if s[0] == c then [""] + rest
      else [[s[0]] + rest[0]] + rest[1..]
  }

  /** `parts.join(c)`. */
  function JoinWith(parts: seq<string>, c: char): string
    requires |parts| >= 1
  {
    if |parts| == 1 then parts[0] else parts[0] + [c] + JoinWith(parts[1..], c)
  }

  /** Splitting and joining back gives the string again. */
  lemma {:induction false} JoinSplit(s: string, c: char)
    ensures JoinWith(Split(s, c), c) == s
  {
    if s != [] {
      JoinSplit(s[1..], c);
      var rest := Split(s[1..], c);
      var parts := Split(s, c);
      if s[0] == c {
        assert parts == [""] + rest && parts[1..] == rest;
        assert JoinWith(parts, c) == "" + [c] + s[1..];
      } else if |rest| == 1 {
        assert parts == [[s[0]] + s[1..]];
      } else {
        assert parts[0] == [s[0]] + rest[0] && parts[1..] == rest[1..];
        assert JoinWith(rest, c) == rest[0] + [c] + JoinWith(rest[1..], c);
        assert JoinWith(parts, c) == [s[0]] + rest[0] + [c] + JoinWith(rest[1..], c);
      }
      assert s == [s[0]] + s[1..];
    }
  }

  /** Joining separator-free parts and splitting gives the parts again. */
  lemma {:induction false} SplitJoin(parts: seq<string>, c: char)
    requires |parts| >= 1 && forall i :: 0 <= i < |parts| ==> c !in parts[i]
    ensures Split(JoinWith(parts, c), c) == parts
  {
    if |parts| == 1 {
      SplitPlain(parts[0], c);
    } else {
      SplitJoin(parts[1..], c);
      SplitPrefix(parts[0], JoinWith(parts[1..], c), c);
    }
  }

  lemma {:induction false} SplitPlain(s: string, c: char)
    requires c !in s
    ensures Split(s, c) == [s]
  {
    if s != [] {
      SplitPlain(s[1..], c);
      assert s[0] != c;
      assert [s[0]] + s[1..] == s;
    }
  }

  lemma {:induction false} SplitPrefix(a: string, b: string, c: char)
    requires c !in a
    ensures Split(a + [c] + b, c) == [a] + Split(b, c)
  {
    if a == [] {
      assert a + [c] + b == [c] + b;
      assert ([c] + b)[1..] == b;
    } else {
      assert (a + [c] + b)[1..] == a[1..] + [c] + b;
      SplitPrefix(a[1..], b, c);
      assert [a[0]] + a[1..] == a;
    }
  }

  /** `base64Image.split(',')[1] || base64Image`. */
  function StripDataUrl(image: string): string {
    var parts := Split(image, ',');
    if |parts| > 1 && parts[1] != "" then parts[1] else image
  }

  /** An image without a comma is sent as it is. */
  lemma StripNoComma(image: string)
    requires ',' !in image
    ensures StripDataUrl(image) == image
  {
    SplitPlain(image, ',');
  }

  /** `prefix,data` with a non-empty, comma-free payload sends the payload. */
  lemma StripPrefix(prefix: string, data: string)
    requires ',' !in prefix && ',' !in data && data != ""
    ensures StripDataUrl(prefix + "," + data) == data
  {
    SplitJoin([prefix, data], ',');
    assert JoinWith([prefix, data], ',') == prefix + "," + data;
  }

  /** An empty field after the first comma falls back to the whole input. */
  lemma StripEmptyField(image: string)
    requires |Split(image, ',')| > 1 && Split(image, ',')[1] == ""
    ensures StripDataUrl(image) == image
  {
  }

  /** What is sent is either the whole input or the text between its first and second comma. */
  lemma StripIsField(image: string)
    ensures StripDataUrl(image) == image ||
            exists a, b :: ',' !in a && image == a + "," + StripDataUrl(image) + b && (b == "" || b[0] == ',')
  {
    var parts := Split(image, ',');
    if |parts| > 1 && parts[1] != "" {
      JoinSplit(image, ',');
      var b := if |parts| == 2 then "" else "," + JoinWith(parts[2..], ',');
      assert JoinWith(parts[1..], ',') == parts[1] + b;
      assert image == parts[0] + "," + parts[1] + b;
      assert ',' !in parts[0] && (b == "" || b[0] == ',');
    }
  }

  // ---------------------------------------------------------------------------
  // The request and the reply
  // ---------------------------------------------------------------------------

  /** The request: the model name, the image part and the instruction text. */
  datatype Request = Request(model: string, mimeType: string, data: string, text: string)

  /** The fields of a reply the service reads; an absent field is `None`. */
  datatype InlineData = InlineData(mimeType: Option<string>, data: Option<string>)
  datatype Part = Part(inlineData: Option<InlineData>, text: Option<string>)
  datatype Content = Content(parts: Option<seq<Part>>)
  datatype Candidate = Candidate(content: Option<Content>)
  datatype Reply = Reply(candidates: Option<seq<Candidate>>)

  /** `response.candidates?.[0]?.content?.parts`. */
  function Parts(reply: Reply): Option<seq<Part>> {
    if reply.candidates.Some? && |reply.candidates.value| > 0 && reply.candidates.value[0].content.Some?
    then reply.candidates.value[0].content.value.parts
    else None
  }

  /** The position of the first part with an image (`parts.find(part => part.inlineData)`). */
  function FirstImage(parts: seq<Part>): (r: Option<nat>)
    ensures r.Some? ==> r.value < |parts| && parts[r.value].inlineData.Some? &&
                        forall j :: 0 <= j < r.value ==> parts[j].inlineData.None?
    ensures r.None? ==> forall j :: 0 <= j < |parts| ==> parts[j].inlineData.None?
  {
    if parts == [] then None
    else if parts[0].inlineData.Some? then Some(0)
    else match FirstImage(parts[1..]) case None => None case Some(i) => Some(i + 1)
  }

  /** The position of the first part with non-empty text (`parts.find(part => part.text)`). */
  function FirstText(parts: seq<Part>): (r: Option<nat>)
    ensures r.Some? ==> r.value < |parts| && Truthy(parts[r.value].text) &&
                        forall j :: 0 <= j < r.value ==> !Truthy(parts[j].text)
    ensures r.None? ==> forall j :: 0 <= j < |parts| ==> !Truthy(parts[j].text)
  {
    if parts == [] then None
    else if Truthy(parts[0].text) then Some(0)
    else match FirstText(parts[1..]) case None => None case Some(i) => Some(i + 1)
  }

  /** A template literal shows an absent field as `undefined`. */
  function ShowField(s: Option<string>): string {
    match s case Some(v) => v case None => "undefined"
  }

  function DataUrl(d: InlineData): string {
    "data:" + ShowField(d.mimeType) + ";base64," + ShowField(d.data)
  }

  /**
   * What the service makes of a reply: no parts at all is an error; else the
   * first image part wins; else the first text part is a refusal; else
   * nothing usable came back.
   */
  function Interpret(reply: Reply): (r: Result<string, Thrown>)
    ensures Parts(reply).None? ==> r == Failure(ErrorValue(NoContentMessage))
    ensures r.Success? <==> Parts(reply).Some? && exists i :: 0 <= i < |Parts(reply).value| && Parts(reply).value[i].inlineData.Some?
    ensures r.Success? ==> exists i :: 0 <= i < |Parts(reply).value| && Parts(reply).value[i].inlineData.Some? &&
                                        r.value == DataUrl(Parts(reply).value[i].inlineData.value) &&
                                        forall j :: 0 <= j < i ==> Parts(reply).value[j].inlineData.None?
  {
    match Parts(reply)
    case None => Failure(ErrorValue(NoContentMessage))
    case Some(parts) =>
      match FirstImage(parts)
      case Some(i) => Success(DataUrl(parts[i].inlineData.value))
      case None =>
        match FirstText(parts)
        case Some(i) => Failure(ErrorValue(DeclinedPrefix + parts[i].text.value))
        case None => Failure(ErrorValue(NoImageMessage))
  }

  /** A reply with parts but no image part is a refusal quoting the first text part, or else "no image data". */
  lemma InterpretNoImage(reply: Reply)
    requires Parts(reply).Some? && forall j :: 0 <= j < |Parts(reply).value| ==> Parts(reply).value[j].inlineData.None?
    ensures var parts := Parts(reply).value;
      match FirstText(parts)
      case Some(i) => Interpret(reply) == Failure(ErrorValue(DeclinedPrefix + parts[i].text.value))
      case None => Interpret(reply) == Failure(ErrorValue(NoImageMessage))
  {
    assert FirstImage(Parts(reply).value).None?;
  }

  /** The request the service sends for a template and its parameter values. */
  function RequestFor(image: string, template: EditTemplate, params: Record, numText: real -> string): Request {
    Request(ModelName, ImageMimeType, StripDataUrl(image), Compile(template.SystemPromptTemplate(), params, numText) + PromptSuffix)
  }

  /**
   * `editImageWithGemini`: the key guard comes first, then the template
   * lookup; the reply of `generate` (called with the key) is interpreted,
   * and an error it throws is passed on unchanged.
   */
  function EditImage(
    apiKey: Option<string>, image: string, id: TemplateId, params: Record, numText: real -> string,
    generate: (string, Request) -> Result<Reply, Thrown>): (r: Result<string, Thrown>)
    ensures !Truthy(apiKey) ==> r == Failure(ErrorValue(MissingKeyMessage))
    ensures Truthy(apiKey) ==>
      r == match generate(apiKey.value, RequestFor(image, Constants.TemplateOf(id), params, numText))
           case Failure(e) => Failure(e)
           case Success(reply) => Interpret(reply)
  {
    if !Truthy(apiKey) then Failure(ErrorValue(MissingKeyMessage))
    else
      match GetTemplateById(id)
      case None => Failure(ErrorValue(InvalidTemplateMessage))
      case Some(template) =>
        match generate(apiKey.value, RequestFor(image, template, params, numText))
        case Failure(e) => Failure(e)
        case Success(reply) => Interpret(reply)
  }

  /** The missing-key error names the API key. */
  lemma MissingKeyNamesKey()
    ensures Includes(MissingKeyMessage, KeyMarker)
  {
    assert OccursAt(MissingKeyMessage, KeyMarker, 0);
  }
}
