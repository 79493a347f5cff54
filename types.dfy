/** The data model of the editor: template identifiers, parameter schemas, templates and library items. */
module Types {
  import opened Wrappers
  import opened Strings
  import opened Patterns

  /** The twelve edit templates the editor knows. */
  datatype TemplateId =
    | BackgroundChange | PortraitRetouch | MakeupFilter | ArtisticStyle | ObjectRemove | AddSticker | Custom
    | BgShip | BgBeach | BgStadium | BgNeon | BgForest
  {
    /** The enum member's string value. */
    function Value(): string {
      match this
      case BackgroundChange => "background_change_marketing"
      case PortraitRetouch => "portrait_smile_retouch"
      case MakeupFilter => "makeup_filter_social"
      case ArtisticStyle => "stylize_artistic"
      case ObjectRemove => "remove_object_fill"
      case AddSticker => "add_smiley_sticker"
      case Custom => "custom_edit"
      case BgShip => "bg_ship_luxury"
      case BgBeach => "bg_beach_tropical"
      case BgStadium => "bg_stadium_sports"
      case BgNeon => "bg_neon_city"
      case BgForest => "bg_forest_nature"
    }
  }

  /** The enum member whose string value is `s`, if any; a proof helper, as a string enum has no reverse lookup. */
  function TemplateIdOf(s: string): (r: Option<TemplateId>)
    ensures r.Some? ==> r.value.Value() == s
  {
    if s == "background_change_marketing" then Some(BackgroundChange)
    else if s == "portrait_smile_retouch" then Some(PortraitRetouch)
    else if s == "makeup_filter_social" then Some(MakeupFilter)
    else if s == "stylize_artistic" then Some(ArtisticStyle)
    else if s == "remove_object_fill" then Some(ObjectRemove)
    else if s == "add_smiley_sticker" then Some(AddSticker)
    else if s == "custom_edit" then Some(Custom)
    else if s == "bg_ship_luxury" then Some(BgShip)
    else if s == "bg_beach_tropical" then Some(BgBeach)
    else if s == "bg_stadium_sports" then Some(BgStadium)
    else if s == "bg_neon_city" then Some(BgNeon)
    else if s == "bg_forest_nature" then Some(BgForest)
    else None
  }

  /** Every member's value reads back as that member. */
  lemma TemplateIdRoundTrip(a: TemplateId)
    ensures TemplateIdOf(a.Value()) == Some(a)
  {
    match a
    case BackgroundChange =>
    case PortraitRetouch =>
    case MakeupFilter =>
    case ArtisticStyle =>
    case ObjectRemove =>
    case AddSticker =>
    case Custom =>
    case BgShip =>
    case BgBeach =>
    case BgStadium =>
    case BgNeon =>
    case BgForest =>
  }

  /** The twelve members' values are pairwise distinct. */
  lemma TemplateIdValuesDistinct(a: TemplateId, b: TemplateId)
    ensures a != b ==> a.Value() != b.Value()
  {
    TemplateIdRoundTrip(a);
    TemplateIdRoundTrip(b);
  }

  /** `string | number | boolean`; numbers are real-valued. */
  datatype ParamValue = Str(s: string) | Num(x: real) | Bool(b: bool)

  /** The five kinds of control a parameter is edited with. */
  datatype ParamType = Color | Slider | Select | Text | TextArea

  /** A choice of a select control (`label` in the source; `label` is a Dafny keyword). */
  datatype SelectOption = SelectOption(caption: string, value: string)

  /** A parameter definition; `options`, `min`, `max` and `step` are optional for every kind. */
  datatype TemplateParam = TemplateParam(
    id: string,
    caption: string,
    kind: ParamType,
    defaultValue: ParamValue,
    options: Option<seq<SelectOption>>,
    min: Option<real>,
    max: Option<real>,
    step: Option<real>)

  /** The parameter ids of a schema, in order. */
  function ParamIds(ps: seq<TemplateParam>): (r: seq<string>)
    ensures |r| == |ps| && forall i :: 0 <= i < |ps| ==> r[i] == ps[i].id
  {
    seq(|ps|, i requires 0 <= i < |ps| => ps[i].id)
  }

  /** Parameter ids are pairwise distinct within a schema. */
  predicate DistinctParamIds(ps: seq<TemplateParam>) {
    forall i, j :: 0 <= i < j < |ps| ==> ps[i].id != ps[j].id
  }

  /**
   * An edit template: its schema of parameters and its instruction pattern,
   * kept structured; `SystemPromptTemplate` is the flat text with `${name}`
   * placeholders.
   */
  datatype EditTemplate = EditTemplate(
    id: TemplateId,
    name: string,
    description: string,
    iconName: string,
    params: seq<TemplateParam>,
    instruction: Instruction)
  {
    function SystemPromptTemplate(): string {
      Join(Pieces(instruction))
    }
  }

  /** `templates.find(t => t.id === id)`: the first template with that id. */
  function FindTemplate(templates: seq<EditTemplate>, id: TemplateId): (r: Option<EditTemplate>)
    ensures r.None? <==> forall i :: 0 <= i < |templates| ==> templates[i].id != id
    ensures r.Some? ==> exists i :: 0 <= i < |templates| && templates[i] == r.value && r.value.id == id &&
                                    forall j :: 0 <= j < i ==> templates[j].id != id
  {
    if templates == [] then None
    else if templates[0].id == id then Some(templates[0])
    else
      var r := FindTemplate(templates[1..], id);
      assert forall i :: 1 <= i < |templates| ==> templates[i] == templates[1..][i - 1];
      r
  }

  /** When the ids of a list are pairwise distinct, looking up the id of an entry finds that entry. */
  lemma FindDistinct(templates: seq<EditTemplate>, i: nat)
    requires forall a, b :: 0 <= a < b < |templates| ==> templates[a].id != templates[b].id
    requires i < |templates|
    ensures FindTemplate(templates, templates[i].id) == Some(templates[i])
  {
  }

  /** The placeholders of a template are exactly its parameters, each named once. */
  predicate Closed(t: EditTemplate) {
    && DistinctParamIds(t.params)
    && Distinct(Keys(t.instruction))
    && (forall k :: k in Keys(t.instruction) ==> k in ParamIds(t.params))
    && (forall k :: k in ParamIds(t.params) ==> k in Keys(t.instruction))
  }

  /** A slider's default lies within its range. */
  predicate SliderInRange(p: TemplateParam) {
    p.kind == Slider ==>
      p.defaultValue.Num? && p.min.Some? && p.max.Some? && p.min.value <= p.defaultValue.x <= p.max.value
  }

  /** A select control has at least one option. */
  predicate SelectHasOptions(p: TemplateParam) {
    p.kind == Select ==> p.options.Some? && |p.options.value| > 0
  }

  /** A text default holds no `$`, so filling it in inserts it literally. */
  predicate PlainDefault(p: TemplateParam) {
    p.defaultValue.Str? ==> '$' !in p.defaultValue.s
  }

  predicate SchemaSound(t: EditTemplate) {
    forall p :: p in t.params ==> SliderInRange(p) && SelectHasOptions(p) && PlainDefault(p)
  }

  /**
   * In the instruction text of a closed template, `${k}` occurs exactly when
   * `k` is one of its parameter ids, and then exactly once.
   */
  lemma PlaceholderOnce(t: EditTemplate, k: string)
    requires Closed(t) && '}' !in k
    ensures Includes(t.SystemPromptTemplate(), Placeholder(k)) <==> k in ParamIds(t.params)
    ensures forall i, i' ::
              OccursAt(t.SystemPromptTemplate(), Placeholder(k), i) && OccursAt(t.SystemPromptTemplate(), Placeholder(k), i')
              ==> i == i'
  {
    InstructionHolesDistinct(t.instruction);
    InstructionKeys(t.instruction);
    OccursOnce(Pieces(t.instruction), k);
  }

  datatype ItemKind = Draft | Saved

  datatype LibraryItem = LibraryItem(id: string, kind: ItemKind, imageData: string, timestamp: int)

  datatype ViewMode = Editor | Library
}
