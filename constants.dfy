/**
 * The template registry: the twelve edit templates with their parameter
 * schemas and instruction patterns, and the closure facts the prompt compiler
 * relies on.
 */
module Constants {
  import opened Wrappers
  import opened Strings
  import opened Types
  import opened Patterns

  // constants.ts:19-33
  const BgShipLead: seq<Text> := ["Replace the background with ", "the interior of a luxury ", "cruise ship with large ", "windows looking out at the ", "ocean. Lighting condition: "]

  const BgShipSegments: seq<Segment> := [
    Segment("lighting", [". Ensure the perspective ", "matches the subject."])
  ]

  const BgShipInstruction := Instruction(BgShipLead, BgShipSegments)

  const BgShipParams: seq<TemplateParam> := [
    TemplateParam("lighting", "Lighting", ParamType.Select, Str("golden hour"),
      Some([SelectOption("Golden Hour", "warm golden hour"), SelectOption("Bright Noon", "bright daylight"), SelectOption("Sunset", "dramatic sunset"), SelectOption("Night", "ambient night")]),
      None, None, None)
  ]

  const BgShipTemplate := EditTemplate(
    BgShip, "Luxury Cruise",
    "Inside a luxury ship with ocean views.",
    "Anchor",
    BgShipParams,
    BgShipInstruction)

  lemma BgShipClosed()
    ensures Closed(BgShipTemplate)
  {
    assert Keys(BgShipInstruction) == ["lighting"];
    assert ParamIds(BgShipParams) == ["lighting"];
  }

  lemma BgShipSound()
    ensures SchemaSound(BgShipTemplate)
  {
    assert BgShipTemplate.params == BgShipParams;
  }

  // constants.ts:34-47
  const BgBeachLead: seq<Text> := ["Replace the background with ", "a beautiful tropical beach ", "with turquoise water and ", "white sand. Vibe: "]

  const BgBeachSegments: seq<Segment> := [
    Segment("vibe", [". Seamlessly blend the ", "subject into the ", "environment."])
  ]

  const BgBeachInstruction := Instruction(BgBeachLead, BgBeachSegments)

  const BgBeachParams: seq<TemplateParam> := [
    TemplateParam("vibe", "Vibe", ParamType.Select, Str("relaxing"),
      Some([SelectOption("Relaxing", "calm and relaxing"), SelectOption("Party", "vibrant beach party"), SelectOption("Wild", "wild tropical nature")]),
      None, None, None)
  ]

  const BgBeachTemplate := EditTemplate(
    BgBeach, "Tropical Beach",
    "Sunny beach with turquoise water.",
    "Sun",
    BgBeachParams,
    BgBeachInstruction)

  lemma BgBeachClosed()
    ensures Closed(BgBeachTemplate)
  {
    assert Keys(BgBeachInstruction) == ["vibe"];
    assert ParamIds(BgBeachParams) == ["vibe"];
  }

  lemma BgBeachSound()
    ensures SchemaSound(BgBeachTemplate)
  {
    assert BgBeachTemplate.params == BgBeachParams;
  }

  // constants.ts:48-61
  const BgStadiumLead: seq<Text> := ["Replace the background with ", "a massive sports stadium. ", "Crowd condition: "]

  const BgStadiumSegments: seq<Segment> := [
    Segment("crowd", [". Use bright stadium ", "floodlights for ", "illumination."])
  ]

  const BgStadiumInstruction := Instruction(BgStadiumLead, BgStadiumSegments)

  const BgStadiumParams: seq<TemplateParam> := [
    TemplateParam("crowd", "Crowd Level", ParamType.Select, Str("full"),
      Some([SelectOption("Packed Full", "packed with cheering fans"), SelectOption("Empty", "completely empty grandstands"), SelectOption("Blurry", "bokeh blurred crowd")]),
      None, None, None)
  ]

  const BgStadiumTemplate := EditTemplate(
    BgStadium, "Sports Stadium",
    "Crowded stadium with bright lights.",
    "Trophy",
    BgStadiumParams,
    BgStadiumInstruction)

  lemma BgStadiumClosed()
    ensures Closed(BgStadiumTemplate)
  {
    assert Keys(BgStadiumInstruction) == ["crowd"];
    assert ParamIds(BgStadiumParams) == ["crowd"];
  }

  lemma BgStadiumSound()
    ensures SchemaSound(BgStadiumTemplate)
  {
    assert BgStadiumTemplate.params == BgStadiumParams;
  }

  // constants.ts:62-75
  const BgNeonLead: seq<Text> := ["Replace the background with ", "a futuristic cyberpunk city ", "street at night. Color ", "theme: "]

  const BgNeonSegments: seq<Segment> := [
    Segment("color_theme", [". Add reflections and glow ", "to match the subject."])
  ]

  const BgNeonInstruction := Instruction(BgNeonLead, BgNeonSegments)

  const BgNeonParams: seq<TemplateParam> := [
    TemplateParam("color_theme", "Color Theme", ParamType.Select, Str("pink_blue"),
      Some([SelectOption("Pink & Blue", "pink and blue neon lights"), SelectOption("Green & Gold", "matrix green and gold lights"), SelectOption("Red & Black", "intense red and black")]),
      None, None, None)
  ]

  const BgNeonTemplate := EditTemplate(
    BgNeon, "Neon City",
    "Futuristic cyberpunk city street.",
    "Zap",
    BgNeonParams,
    BgNeonInstruction)

  lemma BgNeonClosed()
    ensures Closed(BgNeonTemplate)
  {
    assert Keys(BgNeonInstruction) == ["color_theme"];
    assert ParamIds(BgNeonParams) == ["color_theme"];
  }

  lemma BgNeonSound()
    ensures SchemaSound(BgNeonTemplate)
  {
    assert BgNeonTemplate.params == BgNeonParams;
  }

  // constants.ts:76-90
  const BgForestLead: seq<Text> := ["Replace the background with ", "a deep, mystic forest. ", "Season/Style: "]

  const BgForestSegments: seq<Segment> := [
    Segment("season", [". Add soft rays of light ", "filtering through the trees."])
  ]

  const BgForestInstruction := Instruction(BgForestLead, BgForestSegments)

  const BgForestParams: seq<TemplateParam> := [
    TemplateParam("season", "Season", ParamType.Select, Str("summer"),
      Some([SelectOption("Summer", "green lush summer"), SelectOption("Autumn", "orange autumn leaves"), SelectOption("Winter", "snowy winter"), SelectOption("Fantasy", "glowing fantasy bio-luminescence")]),
      None, None, None)
  ]

  const BgForestTemplate := EditTemplate(
    BgForest, "Mystic Forest",
    "Enchanted forest with soft light.",
    "Mountain",
    BgForestParams,
    BgForestInstruction)

  lemma BgForestClosed()
    ensures Closed(BgForestTemplate)
  {
    assert Keys(BgForestInstruction) == ["season"];
    assert ParamIds(BgForestParams) == ["season"];
  }

  lemma BgForestSound()
    ensures SchemaSound(BgForestTemplate)
  {
    assert BgForestTemplate.params == BgForestParams;
  }

  // constants.ts:93-102
  const CustomLead: seq<Text> := ["Follow this image editing ", "instruction exactly: "]

  const CustomSegments: seq<Segment> := [
    Segment("custom_instruction", [])
  ]

  const CustomInstruction := Instruction(CustomLead, CustomSegments)

  const CustomParams: seq<TemplateParam> := [
    TemplateParam("custom_instruction", "Instruction", ParamType.TextArea, Str("Make the person hold a banana"),
      None,
      None, None, None)
  ]

  const CustomTemplate := EditTemplate(
    Custom, "Custom Prompt",
    "Describe any edit you want with a text instruction.",
    "PenTool",
    CustomParams,
    CustomInstruction)

  lemma CustomClosed()
    ensures Closed(CustomTemplate)
  {
    assert Keys(CustomInstruction) == ["custom_instruction"];
    assert ParamIds(CustomParams) == ["custom_instruction"];
  }

  lemma CustomSound()
    ensures SchemaSound(CustomTemplate)
  {
    assert CustomTemplate.params == CustomParams;
  }

  // constants.ts:103-135
  const BackgroundChangeLead: seq<Text> := ["Perform a background edit on ", "the image. Background Mode: "]

  const BackgroundChangeSegments1: seq<Segment> := [
    Segment("bg_action", [". If mode is ", "'replace_color', remove the ", "background and replace it ", "with hex color "])
  ]

  const BackgroundChangeSegments2: seq<Segment> := [
    Segment("color", [". If mode is ", "'keep_original', do not ", "change the background. ", "Watermark: "])
  ]

  const BackgroundChangeSegments3: seq<Segment> := [
    Segment("use_watermark", [". If Watermark is 'yes', ", "overlay a '"]),
    Segment("watermark_type", ["' with text '"]),
    Segment("watermark_text", ["' at "]),
    Segment("position", [" with "])
  ]

  const BackgroundChangeSegments4: seq<Segment> := [
    Segment("opacity", [" opacity. Ensure ", "professional quality."])
  ]

  const BackgroundChangeInstruction := Instruction(BackgroundChangeLead, BackgroundChangeSegments1 + BackgroundChangeSegments2 + BackgroundChangeSegments3 + BackgroundChangeSegments4)

  const BackgroundChangeParams: seq<TemplateParam> := [
    TemplateParam("bg_action", "Background Action", ParamType.Select, Str("replace_color"),
      Some([SelectOption("Replace with Color", "replace_color"), SelectOption("Keep Original", "keep_original")]),
      None, None, None),
    TemplateParam("color", "Background Color", ParamType.Color, Str("#ffffff"),
      None,
      None, None, None),
    TemplateParam("use_watermark", "Add Watermark?", ParamType.Select, Str("no"),
      Some([SelectOption("No", "no"), SelectOption("Yes", "yes")]),
      None, None, None),
    TemplateParam("watermark_text", "Watermark Text", ParamType.Text, Str("TuLu Studio"),
      None,
      None, None, None),
    TemplateParam("watermark_type", "Watermark Style", ParamType.Select, Str("brand"),
      Some([SelectOption("Brand Watermark", "brand logo"), SelectOption("Text Watermark", "simple text"), SelectOption("Pattern", "repeated tiled pattern"), SelectOption("Stamp", "official stamp")]),
      None, None, None),
    TemplateParam("position", "Position", ParamType.Select, Str("bottom-right"),
      Some([SelectOption("Bottom Right", "bottom-right"), SelectOption("Bottom Left", "bottom-left"), SelectOption("Top Right", "top-right"), SelectOption("Top Left", "top-left"), SelectOption("Center", "center")]),
      None, None, None),
    TemplateParam("opacity", "Opacity", ParamType.Slider, Num(0.5),
      None,
      Some(0.1), Some(1.0), Some(0.1))
  ]

  const BackgroundChangeTemplate := EditTemplate(
    BackgroundChange, "Studio Background",
    "Solid colors, background removal, or watermarks.",
    "Palette",
    BackgroundChangeParams,
    BackgroundChangeInstruction)

  lemma BackgroundChangeNames()
    ensures Keys(BackgroundChangeInstruction) == ["bg_action", "color", "use_watermark", "watermark_type", "watermark_text", "position", "opacity"]
    ensures ParamIds(BackgroundChangeParams) == ["bg_action", "color", "use_watermark", "watermark_text", "watermark_type", "position", "opacity"]
  {
  }

  lemma BackgroundChangeClosed()
    ensures Closed(BackgroundChangeTemplate)
  {
    BackgroundChangeNames();
  }

  lemma BackgroundChangeSound()
    ensures SchemaSound(BackgroundChangeTemplate)
  {
    var ps := BackgroundChangeParams;
    assert BackgroundChangeTemplate.params == ps;
    forall i | 0 <= i < |ps| ensures SliderInRange(ps[i]) && SelectHasOptions(ps[i]) && PlainDefault(ps[i]) {
    }
  }

  // constants.ts:136-146
  const PortraitRetouchLead: seq<Text> := ["Detect the primary face. ", "Apply a subtle smile with ", "intensity "]

  const PortraitRetouchSegments1: seq<Segment> := [
    Segment("smile_intensity", [" (0-1). Apply skin smoothing ", "of "])
  ]

  const PortraitRetouchSegments2: seq<Segment> := [
    Segment("smoothing", [" (0-1). STRICTLY preserve ", "the person's identity and ", "facial structure."])
  ]

  const PortraitRetouchInstruction := Instruction(PortraitRetouchLead, PortraitRetouchSegments1 + PortraitRetouchSegments2)

  const PortraitRetouchParams: seq<TemplateParam> := [
    TemplateParam("smile_intensity", "Smile Intensity", ParamType.Slider, Num(0.4),
      None,
      Some(0.0), Some(1.0), Some(0.1)),
    TemplateParam("smoothing", "Skin Smoothing", ParamType.Slider, Num(0.3),
      None,
      Some(0.0), Some(1.0), Some(0.1))
  ]

  const PortraitRetouchTemplate := EditTemplate(
    PortraitRetouch, "Portrait Retouch",
    "Enhance smiles and smooth skin naturally.",
    "Smile",
    PortraitRetouchParams,
    PortraitRetouchInstruction)

  lemma PortraitRetouchClosed()
    ensures Closed(PortraitRetouchTemplate)
  {
    assert Keys(PortraitRetouchInstruction) == ["smile_intensity", "smoothing"];
    assert ParamIds(PortraitRetouchParams) == ["smile_intensity", "smoothing"];
  }

  lemma PortraitRetouchSound()
    ensures SchemaSound(PortraitRetouchTemplate)
  {
    assert PortraitRetouchTemplate.params == PortraitRetouchParams;
  }

  // constants.ts:147-158
  const MakeupFilterLead: seq<Text> := ["Apply natural digital ", "makeup. Foundation strength: "]

  const MakeupFilterSegments: seq<Segment> := [
    Segment("foundation_strength", [". Lip tint color: "]),
    Segment("lip_tint", [". Eyelash boost: "]),
    Segment("lashes_boost", [". Keep the look realistic."])
  ]

  const MakeupFilterInstruction := Instruction(MakeupFilterLead, MakeupFilterSegments)

  const MakeupFilterParams: seq<TemplateParam> := [
    TemplateParam("foundation_strength", "Foundation", ParamType.Slider, Num(0.3),
      None,
      Some(0.0), Some(1.0), Some(0.1)),
    TemplateParam("lip_tint", "Lip Tint Color", ParamType.Color, Str("#C45A7A"),
      None,
      None, None, None),
    TemplateParam("lashes_boost", "Lashes Boost", ParamType.Slider, Num(0.2),
      None,
      Some(0.0), Some(1.0), Some(0.1))
  ]

  const MakeupFilterTemplate := EditTemplate(
    MakeupFilter, "Pro Makeup",
    "Apply digital makeup foundation and lip tint.",
    "Sparkles",
    MakeupFilterParams,
    MakeupFilterInstruction)

  lemma MakeupFilterClosed()
    ensures Closed(MakeupFilterTemplate)
  {
    assert Keys(MakeupFilterInstruction) == ["foundation_strength", "lip_tint", "lashes_boost"];
    assert ParamIds(MakeupFilterParams) == ["foundation_strength", "lip_tint", "lashes_boost"];
  }

  lemma MakeupFilterSound()
    ensures SchemaSound(MakeupFilterTemplate)
  {
    assert MakeupFilterTemplate.params == MakeupFilterParams;
  }

  // constants.ts:159-174
  const ArtisticStyleLead: seq<Text> := ["Stylize this image in a "]

  const ArtisticStyleSegments: seq<Segment> := [
    Segment("style", [" art style. Keep the main ", "subject recognizable but ", "transform the texture and ", "lighting to match the style."])
  ]

  const ArtisticStyleInstruction := Instruction(ArtisticStyleLead, ArtisticStyleSegments)

  const ArtisticStyleParams: seq<TemplateParam> := [
    TemplateParam("style", "Art Style", ParamType.Select, Str("watercolor"),
      Some([SelectOption("Watercolor", "watercolor"), SelectOption("Cyberpunk", "cyberpunk"), SelectOption("Oil Painting", "oil painting"), SelectOption("Sketch", "pencil sketch"), SelectOption("Vaporwave", "vaporwave")]),
      None, None, None)
  ]

  const ArtisticStyleTemplate := EditTemplate(
    ArtisticStyle, "Artistic Stylize",
    "Transform image into different art styles.",
    "Paintbrush",
    ArtisticStyleParams,
    ArtisticStyleInstruction)

  lemma ArtisticStyleClosed()
    ensures Closed(ArtisticStyleTemplate)
  {
    assert Keys(ArtisticStyleInstruction) == ["style"];
    assert ParamIds(ArtisticStyleParams) == ["style"];
  }

  lemma ArtisticStyleSound()
    ensures SchemaSound(ArtisticStyleTemplate)
  {
    assert ArtisticStyleTemplate.params == ArtisticStyleParams;
  }

  // constants.ts:175-188
  const ObjectRemoveLead: seq<Text> := ["Remove the "]

  const ObjectRemoveSegments1: seq<Segment> := [
    Segment("object_desc", [" from the image. Inpaint the ", "area using a "])
  ]

  const ObjectRemoveSegments2: seq<Segment> := [
    Segment("fill_mode", ["-aware fill to match the ", "surrounding background ", "seamlessly."])
  ]

  const ObjectRemoveInstruction := Instruction(ObjectRemoveLead, ObjectRemoveSegments1 + ObjectRemoveSegments2)

  const ObjectRemoveParams: seq<TemplateParam> := [
    TemplateParam("object_desc", "What to remove?", ParamType.Text, Str("sunglasses"),
      None,
      None, None, None),
    TemplateParam("fill_mode", "Fill Mode", ParamType.Select, Str("texture"),
      Some([SelectOption("Texture Aware", "texture"), SelectOption("Blur", "blur")]),
      None, None, None)
  ]

  const ObjectRemoveTemplate := EditTemplate(
    ObjectRemove, "Object Removal",
    "Remove objects described by text.",
    "Eraser",
    ObjectRemoveParams,
    ObjectRemoveInstruction)

  lemma ObjectRemoveClosed()
    ensures Closed(ObjectRemoveTemplate)
  {
    assert Keys(ObjectRemoveInstruction) == ["object_desc", "fill_mode"];
    assert ParamIds(ObjectRemoveParams) == ["object_desc", "fill_mode"];
  }

  lemma ObjectRemoveSound()
    ensures SchemaSound(ObjectRemoveTemplate)
  {
    assert ObjectRemoveTemplate.params == ObjectRemoveParams;
  }

  // constants.ts:189-205
  const AddStickerLead: seq<Text> := ["Add a "]

  const AddStickerSegments1: seq<Segment> := [
    Segment("sticker_type", [" sticker at the "]),
    Segment("position", [" of the image. Scale it to "])
  ]

  const AddStickerSegments2: seq<Segment> := [
    Segment("scale", ["% of the image size. Blend ", "edges slightly and add a ", "subtle drop shadow."])
  ]

  const AddStickerInstruction := Instruction(AddStickerLead, AddStickerSegments1 + AddStickerSegments2)

  const AddStickerParams: seq<TemplateParam> := [
    TemplateParam("sticker_type", "Sticker Type", ParamType.Text, Str("yellow smiley face"),
      None,
      None, None, None),
    TemplateParam("position", "Position", ParamType.Select, Str("top-left"),
      Some([SelectOption("Top Left", "top-left"), SelectOption("Top Right", "top-right"), SelectOption("Bottom Left", "bottom-left"), SelectOption("Bottom Right", "bottom-right")]),
      None, None, None),
    TemplateParam("scale", "Scale (%)", ParamType.Slider, Num(20.0),
      None,
      Some(5.0), Some(50.0), Some(5.0))
  ]

  const AddStickerTemplate := EditTemplate(
    AddSticker, "Add Sticker",
    "Place a graphical sticker on the image.",
    "Sticker",
    AddStickerParams,
    AddStickerInstruction)

  lemma AddStickerClosed()
    ensures Closed(AddStickerTemplate)
  {
    assert Keys(AddStickerInstruction) == ["sticker_type", "position", "scale"];
    assert ParamIds(AddStickerParams) == ["sticker_type", "position", "scale"];
  }

  lemma AddStickerSound()
    ensures SchemaSound(AddStickerTemplate)
  {
    assert AddStickerTemplate.params == AddStickerParams;
  }

  const TEMPLATES: seq<EditTemplate> := [
    BgShipTemplate, BgBeachTemplate, BgStadiumTemplate, BgNeonTemplate, BgForestTemplate, CustomTemplate,
    BackgroundChangeTemplate, PortraitRetouchTemplate, MakeupFilterTemplate, ArtisticStyleTemplate,
    ObjectRemoveTemplate, AddStickerTemplate
  ]

  /** The registry position of an identifier's template. */
  function Slot(id: TemplateId): nat {
    match id
    case BgShip => 0
    case BgBeach => 1
    case BgStadium => 2
    case BgNeon => 3
    case BgForest => 4
    case Custom => 5
    case BackgroundChange => 6
    case PortraitRetouch => 7
    case MakeupFilter => 8
    case ArtisticStyle => 9
    case ObjectRemove => 10
    case AddSticker => 11
  }

  /** The template of each identifier. */
  function TemplateOf(id: TemplateId): EditTemplate {
    match id
    case BgShip => BgShipTemplate
    case BgBeach => BgBeachTemplate
    case BgStadium => BgStadiumTemplate
    case BgNeon => BgNeonTemplate
    case BgForest => BgForestTemplate
    case Custom => CustomTemplate
    case BackgroundChange => BackgroundChangeTemplate
    case PortraitRetouch => PortraitRetouchTemplate
    case MakeupFilter => MakeupFilterTemplate
    case ArtisticStyle => ArtisticStyleTemplate
    case ObjectRemove => ObjectRemoveTemplate
    case AddSticker => AddStickerTemplate
  }

  /** Every identifier has its template in the registry. */
  lemma SlotFinds(id: TemplateId)
    ensures Slot(id) < |TEMPLATES| && TEMPLATES[Slot(id)] == TemplateOf(id) && TemplateOf(id).id == id
  {
  }

  /** Every registry entry sits at its identifier's position. */
  lemma SlotOfEntry(i: nat)
    requires i < |TEMPLATES|
    ensures Slot(TEMPLATES[i].id) == i
  {
  }

  /** There is exactly one template per identifier: twelve entries with pairwise distinct ids. */
  lemma TemplateIdsDistinct()
    ensures |TEMPLATES| == 12
    ensures forall i, j :: 0 <= i < j < |TEMPLATES| ==> TEMPLATES[i].id != TEMPLATES[j].id
  {
    forall i, j | 0 <= i < j < |TEMPLATES|
      ensures TEMPLATES[i].id != TEMPLATES[j].id
    {
      SlotOfEntry(i);
      SlotOfEntry(j);
    }
  }

  /** Every template is closed and its schema is sound. */
  lemma TemplateClosed(id: TemplateId)
    ensures Closed(TemplateOf(id)) && SchemaSound(TemplateOf(id))
  {
    match id
    case BgShip => BgShipClosed(); BgShipSound();
    case BgBeach => BgBeachClosed(); BgBeachSound();
    case BgStadium => BgStadiumClosed(); BgStadiumSound();
    case BgNeon => BgNeonClosed(); BgNeonSound();
    case BgForest => BgForestClosed(); BgForestSound();
    case Custom => CustomClosed(); CustomSound();
    case BackgroundChange => BackgroundChangeClosed(); BackgroundChangeSound();
    case PortraitRetouch => PortraitRetouchClosed(); PortraitRetouchSound();
    case MakeupFilter => MakeupFilterClosed(); MakeupFilterSound();
    case ArtisticStyle => ArtisticStyleClosed(); ArtisticStyleSound();
    case ObjectRemove => ObjectRemoveClosed(); ObjectRemoveSound();
    case AddSticker => AddStickerClosed(); AddStickerSound();
  }

  /** Every registered template is closed and its schema is sound. */
  lemma RegistryClosed(i: nat)
    requires i < |TEMPLATES|
    ensures Closed(TEMPLATES[i]) && SchemaSound(TEMPLATES[i])
  {
    SlotOfEntry(i);
    SlotFinds(TEMPLATES[i].id);
    TemplateClosed(TEMPLATES[i].id);
  }


  /** Looking any identifier up in the registry finds its template. */
  lemma LookupSucceeds(id: TemplateId)
    ensures FindTemplate(TEMPLATES, id) == Some(TemplateOf(id))
  {
    SlotFinds(id);
    TemplateIdsDistinct();
    FindDistinct(TEMPLATES, Slot(id));
  }
}
