/**
 * The state transitions of `app/components/shared/TransformationForm.tsx`:
 * the displayed image, the staged edit (`newTransformation`), the committed
 * configuration (`transformationConfig`) and `isTransforming`, stepped by
 * the component's handlers. Rendering and the form library are not modelled.
 */
module TransformationForm {
  import opened Wrappers
  import opened Utils

  /** The values the form's fields start from. */
  datatype FormValues = FormValues(title: JValue, aspectRatio: JValue, color: JValue, prompt: JValue,
                                   publicId: JValue)

  /** `data?.key`: the field's value, or `undefined` (here `JNull`) when it is absent. */
  function FieldOf(data: Obj, key: string): JValue {
    if key in data then data[key] else JNull
  }

  /**
   * `initialValues`: the stored image's fields when an existing image is
   * being updated, the defaults otherwise.
   */
  function InitialValues(action: string, data: Option<Obj>, defaultValues: FormValues): (v: FormValues)
    ensures data.None? || action != "Update" ==> v == defaultValues
    ensures data.Some? && action == "Update" ==>
              && v.title == FieldOf(data.value, "title")
              && v.aspectRatio == FieldOf(data.value, "aspectRatio")
              && v.color == FieldOf(data.value, "color")
              && v.prompt == FieldOf(data.value, "prompt")
              && v.publicId == FieldOf(data.value, "publicId")
  {
    match data
    case Some(d) =>
      if action == "Update" then
        FormValues(FieldOf(d, "title"), FieldOf(d, "aspectRatio"), FieldOf(d, "color"),
                   FieldOf(d, "prompt"), FieldOf(d, "publicId"))
      else defaultValues
    case None => defaultValues
  }

  /**
   * The image after an aspect ratio is picked: the previous image (an empty
   * object when there was none) with its ratio, width and height taken from
   * the chosen option.
   */
  function WithAspectRatio(image: Option<Obj>, option: AspectRatioOption): (r: Obj)
    ensures r.Keys == image.GetOr(map[]).Keys + {"aspectRatio", "width", "height"}
    ensures r["aspectRatio"] == JStr(option.aspectRatio)
    ensures r["width"] == JInt(option.width) && r["height"] == JInt(option.height)
    ensures forall k :: k in image.GetOr(map[]) && k !in {"aspectRatio", "width", "height"} ==>
              r[k] == image.GetOr(map[])[k]
  {
    image.GetOr(map[])["aspectRatio" := JStr(option.aspectRatio)]
                      ["width" := JInt(option.width)]
                      ["height" := JInt(option.height)]
  }

  /** The option table files each entry under its own aspect ratio. */
  ghost predicate ConsistentOptions(aspectRatioOptions: map<string, AspectRatioOption>) {
    forall k :: k in aspectRatioOptions ==> aspectRatioOptions[k].aspectRatio == k
  }

  /**
   * After an aspect ratio is picked, the size lookup gives the chosen
   * option's size for every transformation type: `fill` reads it from the
   * table, the others from the image's own width and height.
   */
  lemma SelectedSizeAgrees(image: Option<Obj>, value: string, transformationType: string,
                           dimension: Dimension, aspectRatioOptions: map<string, AspectRatioOption>)
    requires value in aspectRatioOptions && ConsistentOptions(aspectRatioOptions)
    ensures var img := WithAspectRatio(image, aspectRatioOptions[value]);
            GetImageSize(transformationType, img, dimension, aspectRatioOptions)
              == OptionSize(aspectRatioOptions[value], dimension)
  {
    var img := WithAspectRatio(image, aspectRatioOptions[value]);
    assert AspectRatioKeyOf(img) == value;
    match dimension
    case Width => assert img[DimensionKey(dimension)] == JInt(aspectRatioOptions[value].width);
    case Height => assert img[DimensionKey(dimension)] == JInt(aspectRatioOptions[value].height);
  }

  /** The key an input writes: `prompt` for the prompt field, `to` for any other. */
  function TargetKey(fieldName: string): string {
    if fieldName == "prompt" then "prompt" else "to"
  }

  /** `{...obj}` of a value: an object's own fields; nothing for `null`, `undefined` and numbers. */
  function SpreadFields(v: Option<JValue>): Obj {
    if v.Some? && v.value.JObj? then v.value.fields else map[]
  }

  /**
   * The updater of `onInputChangeHandler`: the staged edit with `value`
   * written at `[transformationType][TargetKey(fieldName)]`.
   */
  function StageInput(pending: Option<Obj>, fieldName: string, value: string, transformationType: string): (r: Obj)
    ensures transformationType in r && r[transformationType].JObj?
    ensures var inner := r[transformationType].fields;
            TargetKey(fieldName) in inner && inner[TargetKey(fieldName)] == JStr(value)
    ensures r.Keys == pending.GetOr(map[]).Keys + {transformationType}
    ensures forall k :: k in pending.GetOr(map[]) && k != transformationType ==> r[k] == pending.GetOr(map[])[k]
    ensures var before := pending.GetOr(map[]);
            transformationType in before && before[transformationType].JObj? ==>
              forall k :: k in before[transformationType].fields && k != TargetKey(fieldName) ==>
                k in r[transformationType].fields &&
                r[transformationType].fields[k] == before[transformationType].fields[k]
    ensures var before := pending.GetOr(map[]);
            r[transformationType].fields.Keys ==
              (if transformationType in before && before[transformationType].JObj?
               then before[transformationType].fields.Keys else {}) + {TargetKey(fieldName)}
  {
    var prevState := pending.GetOr(map[]);
    var inner := SpreadFields(if transformationType in prevState then Some(prevState[transformationType]) else None);
    prevState[transformationType := JObj(inner[TargetKey(fieldName) := JStr(value)])]
  }

  /**
   * Two keystrokes into the same field leave the same staged edit as the
   * last one alone, so running every updater gives what a debounce that
   * kept only the last would give.
   */
  lemma StageInputLastWins(pending: Option<Obj>, fieldName: string, v1: string, v2: string,
                           transformationType: string)
    ensures StageInput(Some(StageInput(pending, fieldName, v1, transformationType)), fieldName, v2,
                       transformationType)
         == StageInput(pending, fieldName, v2, transformationType)
  {
    var once := StageInput(pending, fieldName, v1, transformationType);
    var twice := StageInput(Some(once), fieldName, v2, transformationType);
    var direct := StageInput(pending, fieldName, v2, transformationType);
    assert twice[transformationType] == direct[transformationType];
    assert twice.Keys == direct.Keys;
  }

  /** One call of `updateCredits` started by the form; its result is never awaited by the form. */
  datatype CreditRequest = CreditRequest(userId: string, creditFee: int)

  /** The transformation types whose default configuration is staged as soon as an image is present. */
  predicate StagesOnImage(transformationType: string) {
    transformationType == "restore" || transformationType == "removeBackground"
  }

  class FormState {
    const action: string
    const userId: string
    /** The `type` prop. */
    const transformationType: string
    /** `transformationTypes[type].config`: the type's default configuration. */
    const typeConfig: Obj
    const aspectRatioOptions: map<string, AspectRatioOption>
    const creditFee: int
    const initialValues: FormValues

    var image: Option<Obj>
    var newTransformation: Option<Obj>
    var transformationConfig: Option<Obj>
    var isTransforming: bool
    /** The `updateCredits` calls issued so far. */
    var creditRequests: seq<CreditRequest>

    /** A debit has been issued exactly when a transformation has been applied. */
    ghost predicate Valid()
      reads this
    {
      isTransforming <==> creditRequests != []
    }

    /** The Apply button is enabled: not transforming and an edit is staged. */
    predicate ApplyEnabled()
      reads this
    {
      !isTransforming && newTransformation.Some?
    }

    constructor (action: string, data: Option<Obj>, userId: string, transformationType: string,
                 config: Option<Obj>, typeConfig: Obj,
                 aspectRatioOptions: map<string, AspectRatioOption>, creditFee: int,
                 defaultValues: FormValues)
      ensures Valid()
      ensures this.action == action && this.userId == userId
      ensures this.transformationType == transformationType && this.typeConfig == typeConfig
      ensures this.aspectRatioOptions == aspectRatioOptions && this.creditFee == creditFee
      ensures initialValues == InitialValues(action, data, defaultValues)
      ensures image == data && newTransformation == None && transformationConfig == config
      ensures !isTransforming && creditRequests == []
    {
      this.action := action;
      this.userId := userId;
      this.transformationType := transformationType;
      this.typeConfig := typeConfig;
      this.aspectRatioOptions := aspectRatioOptions;
      this.creditFee := creditFee;
      this.initialValues := InitialValues(action, data, defaultValues);
      image := data;
      newTransformation := None;
      transformationConfig := config;
      isTransforming := false;
      creditRequests := [];
    }

    /**
     * `onSelectFieldHandler`: the image takes the chosen option's ratio and
     * size and keeps its other fields; the type's default configuration is
     * staged.
     */
    method SelectAspectRatio(value: string)
      requires value in aspectRatioOptions
      modifies this
      ensures image == Some(WithAspectRatio(old(image), aspectRatioOptions[value]))
      ensures newTransformation == Some(typeConfig)
      ensures transformationConfig == old(transformationConfig)
      ensures isTransforming == old(isTransforming) && creditRequests == old(creditRequests)
    {
      var imageSize := aspectRatioOptions[value];
      image := Some(WithAspectRatio(image, imageSize));
      newTransformation := Some(typeConfig);
    }

    /** The updater of `onInputChangeHandler`, applied when its timer fires. */
    method ChangeInput(fieldName: string, value: string, inputType: string)
      modifies this
      ensures newTransformation == Some(StageInput(old(newTransformation), fieldName, value, inputType))
      ensures image == old(image) && transformationConfig == old(transformationConfig)
      ensures isTransforming == old(isTransforming) && creditRequests == old(creditRequests)
    {
      newTransformation := Some(StageInput(newTransformation, fieldName, value, inputType));
    }

    /** The prompt input: writes `[type].prompt`. */
    method ChangePrompt(value: string)
      modifies this
      ensures newTransformation == Some(StageInput(old(newTransformation), "prompt", value, transformationType))
      ensures transformationType in newTransformation.value
      ensures newTransformation.value[transformationType].JObj?
      ensures "prompt" in newTransformation.value[transformationType].fields
      ensures newTransformation.value[transformationType].fields["prompt"] == JStr(value)
      ensures image == old(image) && transformationConfig == old(transformationConfig)
      ensures isTransforming == old(isTransforming) && creditRequests == old(creditRequests)
    {
      ChangeInput("prompt", value, transformationType);
    }

    /** The colour input: always writes `recolor.to`, whatever the form's type. */
    method ChangeColor(value: string)
      modifies this
      ensures newTransformation == Some(StageInput(old(newTransformation), "color", value, "recolor"))
      ensures "recolor" in newTransformation.value && newTransformation.value["recolor"].JObj?
      ensures "to" in newTransformation.value["recolor"].fields
      ensures newTransformation.value["recolor"].fields["to"] == JStr(value)
      ensures image == old(image) && transformationConfig == old(transformationConfig)
      ensures isTransforming == old(isTransforming) && creditRequests == old(creditRequests)
    {
      ChangeInput("color", value, "recolor");
    }

    /**
     * `onTransformHandler`: marks the form as transforming, merges the staged
     * edit (or an empty one) over the committed configuration so that every
     * staged value wins, clears the staged edit, and issues one debit.
     */
    method Transform()
      requires Valid()
      modifies this
      ensures Valid()
      ensures isTransforming
      ensures transformationConfig ==
                Some(DeepMerge(old(newTransformation).GetOr(map[]), old(transformationConfig)))
      ensures Overrides(old(newTransformation).GetOr(map[]), transformationConfig.value)
      ensures newTransformation == None
      ensures creditRequests == old(creditRequests) + [CreditRequest(userId, creditFee)]
      ensures image == old(image)
    {
      isTransforming := true;
      var merged := DeepMergeObjects(newTransformation.GetOr(map[]), transformationConfig);
      DeepMergeKeepsFirst(newTransformation.GetOr(map[]), transformationConfig);
      transformationConfig := Some(merged);
      newTransformation := None;
      creditRequests := creditRequests + [CreditRequest(userId, creditFee)];
    }

    /**
     * A click on the Apply button, which is disabled unless `ApplyEnabled()`.
     * Since nothing resets `isTransforming`, the button fires at most once,
     * so at most one debit is ever issued through it.
     */
    method ClickApply()
      requires Valid()
      modifies this
      ensures Valid()
      ensures old(ApplyEnabled()) ==>
                && creditRequests == [CreditRequest(userId, creditFee)]
                && transformationConfig ==
                     Some(DeepMerge(old(newTransformation).value, old(transformationConfig)))
                && newTransformation == None
                && !ApplyEnabled()
      ensures !old(ApplyEnabled()) ==>
                && creditRequests == old(creditRequests)
                && newTransformation == old(newTransformation)
                && transformationConfig == old(transformationConfig)
                && isTransforming == old(isTransforming)
      ensures image == old(image)
    {
      if ApplyEnabled() {
        Transform();
      }
    }

    /**
     * The staging effect, which React runs after mounting and whenever the
     * image changes: with an image present and a `restore` or
     * `removeBackground` form, the type's default configuration is staged.
     */
    method RunStagingEffect()
      modifies this
      ensures image.Some? && StagesOnImage(transformationType) ==> newTransformation == Some(typeConfig)
      ensures !(image.Some? && StagesOnImage(transformationType)) ==>
                newTransformation == old(newTransformation)
      ensures image == old(image) && transformationConfig == old(transformationConfig)
      ensures isTransforming == old(isTransforming) && creditRequests == old(creditRequests)
    {
      if image.Some? && StagesOnImage(transformationType) {
        newTransformation := Some(typeConfig);
      }
    }
  }

  /** One user interaction with the form, or a run of its staging effect. */
  datatype Event =
    | SelectRatio(ratio: string)
    | Input(fieldName: string, value: string, inputType: string)
    | Prompt(prompt: string)
    | Color(color: string)
    | StagingEffect
    | Apply

  /** The select only offers ratios filed in the option table. */
  predicate Offered(e: Event, aspectRatioOptions: map<string, AspectRatioOption>) {
    e.SelectRatio? ==> e.ratio in aspectRatioOptions
  }

  /**
   * Once Apply has been clicked, no later interaction re-enables it: every
   * handler keeps `isTransforming` set, so whatever events follow, the one
   * debit and the committed configuration of that click are all there is.
   */
  method ApplyFiresOnce(form: FormState, events: seq<Event>)
    requires form.Valid() && form.ApplyEnabled()
    requires forall i :: 0 <= i < |events| ==> Offered(events[i], form.aspectRatioOptions)
    modifies form
    ensures form.Valid() && form.isTransforming && !form.ApplyEnabled()
    ensures form.creditRequests == [CreditRequest(form.userId, form.creditFee)]
    ensures form.transformationConfig ==
              Some(DeepMerge(old(form.newTransformation).value, old(form.transformationConfig)))
  {
    form.ClickApply();
    var committed := form.transformationConfig;
    var n := 0;
    while n < |events|
      invariant 0 <= n <= |events|
      invariant form.Valid() && form.isTransforming
      invariant form.creditRequests == [CreditRequest(form.userId, form.creditFee)]
      invariant form.transformationConfig == committed
    {
      match events[n] {
        case SelectRatio(ratio) => form.SelectAspectRatio(ratio);
        case Input(fieldName, value, inputType) => form.ChangeInput(fieldName, value, inputType);
        case Prompt(prompt) => form.ChangePrompt(prompt);
        case Color(color) => form.ChangeColor(color);
        case StagingEffect => form.RunStagingEffect();
        case Apply => form.ClickApply();
      }
      n := n + 1;
    }
  }
}
