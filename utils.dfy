/**
 * The stateable helpers of `lib/utils.ts`: the recursive merge of two
 * configuration objects, the image-size lookup with its fallback of 1000,
 * and the pruning of a parsed query string.
 */
module Utils {
  import opened Wrappers

  /** A JSON-like value as the TypeScript code sees it; `undefined` is read as `JNull`. */
  datatype JValue =
    | JNull
    | JBool(b: bool)
    | JInt(i: int)
    | JStr(s: string)
    | JObj(fields: map<string, JValue>)

  /** A plain object: its own enumerable keys and their values. */
  type Obj = map<string, JValue>

  // ---------------------------------------------------------------------
  // deepMergeObjects
  // ---------------------------------------------------------------------

  /**
   * The merge of `obj1` over `obj2`: every key of either side; a key of
   * `obj1` takes `obj1`'s value unless both values are objects, in which
   * case the two are merged recursively; a key only in `obj2` keeps its value.
   */
  function Merge(obj1: Obj, obj2: Obj): Obj
    decreases JObj(obj1)
  {
    map k | k in obj1.Keys + obj2.Keys ::
      if k in obj1 then
        if k in obj2 && obj1[k].JObj? && obj2[k].JObj? then
          JObj(Merge(obj1[k].fields, obj2[k].fields))
        else
          obj1[k]
      else
        obj2[k]
  }

  /** `deepMergeObjects(obj1, obj2)` where `obj2` may be `null` or `undefined`. */
  function DeepMerge(obj1: Obj, obj2: Option<Obj>): Obj {
    match obj2
    case None => obj1
    case Some(o2) => Merge(obj1, o2)
  }

  /**
   * The source's merge: copy `obj2`, then walk the keys of `obj1` and
   * overwrite each one in the output, recursing where both sides hold objects.
   */
  method DeepMergeObjects(obj1: Obj, obj2: Option<Obj>) returns (output: Obj)
    ensures output == DeepMerge(obj1, obj2)
    decreases JObj(obj1)
  {
    if obj2.None? {
      return obj1;
    }
    var o2 := obj2.value;
    output := o2;
    var todo := obj1.Keys;
    while todo != {}
      invariant todo <= obj1.Keys
      invariant output.Keys == o2.Keys + (obj1.Keys - todo)
      invariant forall k :: k in output && k !in todo ==> output[k] == Merge(obj1, o2)[k]
      decreases todo
    {
      var key :| key in todo;
      var val1 := obj1[key];
      if key in o2 && val1.JObj? && o2[key].JObj? {
        var sub := DeepMergeObjects(val1.fields, Some(o2[key].fields));
        output := output[key := JObj(sub)];
      } else {
        output := output[key := val1];
      }
      todo := todo - {key};
    }
    assert output.Keys == Merge(obj1, o2).Keys;
  }

  /** The merged output has exactly the keys of both inputs. */
  lemma MergeKeys(obj1: Obj, obj2: Obj)
    ensures Merge(obj1, obj2).Keys == obj1.Keys + obj2.Keys
  {
  }

  /** A missing second argument gives back the first argument unchanged. */
  lemma DeepMergeOfNothing(obj1: Obj)
    ensures DeepMerge(obj1, None) == obj1
  {
  }

  /**
   * Per key: a key only in `obj2` keeps `obj2`'s value; a key of `obj1`
   * keeps `obj1`'s value unless both sides hold objects, which are merged.
   */
  lemma MergeAt(obj1: Obj, obj2: Obj, k: string)
    requires k in obj1.Keys + obj2.Keys
    ensures k !in obj1 ==> Merge(obj1, obj2)[k] == obj2[k]
    ensures k in obj1 && !(k in obj2 && obj1[k].JObj? && obj2[k].JObj?) ==>
              Merge(obj1, obj2)[k] == obj1[k]
    ensures k in obj1 && k in obj2 && obj1[k].JObj? && obj2[k].JObj? ==>
              Merge(obj1, obj2)[k] == JObj(Merge(obj1[k].fields, obj2[k].fields))
  {
  }

  /** Merging over an empty object, or merging an empty object, changes nothing. */
  lemma MergeEmpty(obj: Obj)
    ensures Merge(obj, map[]) == obj
    ensures Merge(map[], obj) == obj
  {
  }

  /** Merging an object with itself gives the same object. */
  lemma {:induction false} MergeIdempotent(obj: Obj)
    ensures Merge(obj, obj) == obj
    decreases JObj(obj)
  {
    forall k | k in obj
      ensures Merge(obj, obj)[k] == obj[k]
    {
      if obj[k].JObj? {
        MergeIdempotent(obj[k].fields);
      }
    }
  }

  /**
   * Merging the same first argument a second time changes nothing: the
   * values of `obj1` already won everywhere they can.
   */
  lemma {:induction false} MergeReapplied(obj1: Obj, obj2: Obj)
    ensures Merge(obj1, Merge(obj1, obj2)) == Merge(obj1, obj2)
    decreases JObj(obj1)
  {
    var m := Merge(obj1, obj2);
    forall k | k in m
      ensures Merge(obj1, m)[k] == m[k]
    {
      if k in obj1 && obj1[k].JObj? {
        if k in obj2 && obj2[k].JObj? {
          MergeReapplied(obj1[k].fields, obj2[k].fields);
        } else {
          MergeIdempotent(obj1[k].fields);
        }
      }
    }
  }

  /**
   * `r` carries every leaf of `edit` at the same path: each key of `edit`
   * is in `r`, with an object wherever `edit` has one and with `edit`'s own
   * value wherever `edit` has a scalar.
   */
  ghost predicate Overrides(edit: Obj, r: Obj)
    decreases JObj(edit)
  {
    forall k :: k in edit ==>
      k in r &&
      if edit[k].JObj? then r[k].JObj? && Overrides(edit[k].fields, r[k].fields)
      else r[k] == edit[k]
  }

  lemma {:induction false} OverridesReflexive(obj: Obj)
    ensures Overrides(obj, obj)
    decreases JObj(obj)
  {
    forall k | k in obj && obj[k].JObj?
      ensures Overrides(obj[k].fields, obj[k].fields)
    {
      OverridesReflexive(obj[k].fields);
    }
  }

  /** Every leaf of the first argument survives the merge unchanged. */
  lemma {:induction false} MergeKeepsFirst(obj1: Obj, obj2: Obj)
    ensures Overrides(obj1, Merge(obj1, obj2))
    decreases JObj(obj1)
  {
    var m := Merge(obj1, obj2);
    forall k | k in obj1 && obj1[k].JObj?
      ensures m[k].JObj? && Overrides(obj1[k].fields, m[k].fields)
    {
      if k in obj2 && obj2[k].JObj? {
        MergeKeepsFirst(obj1[k].fields, obj2[k].fields);
      } else {
        OverridesReflexive(obj1[k].fields);
      }
    }
  }

  /** The same, with a second argument that may be missing. */
  lemma DeepMergeKeepsFirst(obj1: Obj, obj2: Option<Obj>)
    ensures Overrides(obj1, DeepMerge(obj1, obj2))
  {
    if obj2.Some? {
      MergeKeepsFirst(obj1, obj2.value);
    } else {
      OverridesReflexive(obj1);
    }
  }

  /**
   * A staged recolor edit `{recolor: {to: "red"}}` over the baseline
   * `{recolor: {to: "blue", strength: 5}}` overrides the colour and keeps
   * the sibling key.
   */
  lemma MergeRecolorExample()
    ensures Merge(map["recolor" := JObj(map["to" := JStr("red")])],
                  map["recolor" := JObj(map["to" := JStr("blue"), "strength" := JInt(5)])])
         == map["recolor" := JObj(map["to" := JStr("red"), "strength" := JInt(5)])]
  {
    var inner1 := map["to" := JStr("red")];
    var inner2 := map["to" := JStr("blue"), "strength" := JInt(5)];
    var innerR := map["to" := JStr("red"), "strength" := JInt(5)];
    assert Merge(inner1, inner2) == innerR by {
      assert Merge(inner1, inner2).Keys == innerR.Keys;
    }
    var outer1 := map["recolor" := JObj(inner1)];
    var outer2 := map["recolor" := JObj(inner2)];
    assert Merge(outer1, outer2)["recolor"] == JObj(innerR);
    assert Merge(outer1, outer2).Keys == {"recolor"};
  }

  // ---------------------------------------------------------------------
  // getImageSize
  // ---------------------------------------------------------------------

  datatype Dimension = Width | Height

  /** The property name a dimension is read from. */
  function DimensionKey(d: Dimension): string {
    match d
    case Width => "width"
    case Height => "height"
  }

  /** One entry of the aspect-ratio option table. */
  datatype AspectRatioOption = AspectRatioOption(aspectRatio: string, labelText: string, width: int, height: int)

  function OptionSize(o: AspectRatioOption, d: Dimension): int {
    match d
    case Width => o.width
    case Height => o.height
  }

  /** The fallback size used when nothing better is known. */
  const DefaultImageSize: int := 1000

  function DigitChar(d: nat): char
    requires d < 10
  {
    "0123456789"[d]
  }

  function NatToString(n: nat): (s: string)
    decreases n
  {
    if n < 10 then [DigitChar(n)] else NatToString(n / 10) + [DigitChar(n % 10)]
  }

  /** The string a value becomes when it is used as a property key. */
  function PropertyKey(v: JValue): string {
    match v
    case JNull => "undefined"
    case JBool(b) => if b then "true" else "false"
    case JInt(i) => if i < 0 then "-" + NatToString(-i) else NatToString(i)
    case JStr(s) => s
    case JObj(_) => "[object Object]"
  }

  /** `image.aspectRatio` used as a key into the option table. */
  function AspectRatioKeyOf(image: Obj): string {
    PropertyKey(if "aspectRatio" in image then image["aspectRatio"] else JNull)
  }

  /**
   * `getImageSize(type, image, dimension)`: for `fill` the size comes from
   * the option table at the image's aspect ratio, otherwise from the image
   * itself when it holds a number there; 1000 in every other case.
   */
  function GetImageSize(transformationType: string, image: Obj, dimension: Dimension,
                        aspectRatioOptions: map<string, AspectRatioOption>): (r: int)
    ensures transformationType == "fill" && AspectRatioKeyOf(image) in aspectRatioOptions ==>
              r == OptionSize(aspectRatioOptions[AspectRatioKeyOf(image)], dimension)
    ensures transformationType == "fill" && AspectRatioKeyOf(image) !in aspectRatioOptions ==>
              r == DefaultImageSize
    ensures transformationType != "fill" ==>
              r == DefaultImageSize ||
              (DimensionKey(dimension) in image && image[DimensionKey(dimension)] == JInt(r))
  {
    if transformationType == "fill" then
      var key := AspectRatioKeyOf(image);
      if key in aspectRatioOptions then OptionSize(aspectRatioOptions[key], dimension)
      else DefaultImageSize
    else
      var dim := if DimensionKey(dimension) in image then image[DimensionKey(dimension)] else JNull;
      if dim.JInt? then dim.i else DefaultImageSize
  }

  /** For `fill`, the size ignores the image's own width and height. */
  lemma FillIgnoresImageDimension(image: Obj, dimension: Dimension, d: Dimension, v: JValue,
                                  aspectRatioOptions: map<string, AspectRatioOption>)
    ensures GetImageSize("fill", image[DimensionKey(d) := v], dimension, aspectRatioOptions)
         == GetImageSize("fill", image, dimension, aspectRatioOptions)
  {
    assert DimensionKey(d) != "aspectRatio";
    assert AspectRatioKeyOf(image[DimensionKey(d) := v]) == AspectRatioKeyOf(image);
  }

  /** For `fill`, an aspect ratio filed in the table gives that entry's size. */
  lemma FillKnownRatio(image: Obj, dimension: Dimension, aspectRatioOptions: map<string, AspectRatioOption>)
    requires AspectRatioKeyOf(image) in aspectRatioOptions
    ensures GetImageSize("fill", image, dimension, aspectRatioOptions)
         == OptionSize(aspectRatioOptions[AspectRatioKeyOf(image)], dimension)
  {
  }

  /** For `fill`, an aspect ratio missing from the table gives 1000. */
  lemma FillUnknownRatio(image: Obj, dimension: Dimension, aspectRatioOptions: map<string, AspectRatioOption>)
    requires AspectRatioKeyOf(image) !in aspectRatioOptions
    ensures GetImageSize("fill", image, dimension, aspectRatioOptions) == DefaultImageSize
  {
  }

  /** For other types, a number stored at the dimension is returned as is, anything else gives 1000. */
  lemma OtherTypeReadsImage(transformationType: string, image: Obj, dimension: Dimension,
                            aspectRatioOptions: map<string, AspectRatioOption>)
    requires transformationType != "fill"
    ensures DimensionKey(dimension) in image && image[DimensionKey(dimension)].JInt? ==>
              GetImageSize(transformationType, image, dimension, aspectRatioOptions)
                == image[DimensionKey(dimension)].i
    ensures !(DimensionKey(dimension) in image && image[DimensionKey(dimension)].JInt?) ==>
              GetImageSize(transformationType, image, dimension, aspectRatioOptions) == DefaultImageSize
  {
  }

  // ---------------------------------------------------------------------
  // removeKeysFromQuery
  // ---------------------------------------------------------------------

  /**
   * The pruning done by `removeKeysFromQuery` on the parsed query: first
   * every listed key is deleted, then every key whose value is `null` or
   * `undefined`.
   */
  method RemoveKeysFromQuery(query: Obj, keysToRemove: seq<string>) returns (current: Obj)
    ensures forall k :: k in current <==> k in query && k !in keysToRemove && query[k] != JNull
    ensures forall k :: k in current ==> current[k] == query[k]
  {
    current := query;
    var i := 0;
    while i < |keysToRemove|
      invariant 0 <= i <= |keysToRemove|
      invariant forall k :: k in current <==> k in query && k !in keysToRemove[..i]
      invariant forall k :: k in current ==> current[k] == query[k]
    {
      current := current - {keysToRemove[i]};
      i := i + 1;
    }
    assert keysToRemove[..i] == keysToRemove;
    var keys := current.Keys;
    while keys != {}
      invariant keys <= current.Keys
      invariant forall k :: k in current <==> k in query && k !in keysToRemove && (k in keys || query[k] != JNull)
      invariant forall k :: k in current ==> current[k] == query[k]
      decreases keys
    {
      var key :| key in keys;
      if current[key] == JNull {
        current := current - {key};
      }
      keys := keys - {key};
    }
  }
}
