/**
 * The `Preloads` widget trait: the maps of assets to preload and URLs to
 * prefetch that a widget adds to the optimizer's maps through
 * `array_merge`.
 */
module Preloads {
  import opened Wrappers
  import opened PhpValues

  /** The current skin, as far as the trait looks at it: `get_frontend_files()`, when the skin has that method. */
  datatype Skin = Skin(frontendFiles: Option<seq<PhpVal>>)

  const ArrayKeyExistsError := TypeError("array_key_exists(): Argument #2 ($array) must be of type array")

  /** An asset is mapped only when both its `id` and its `src` are set (and not null). */
  predicate IsMappedAsset(asset: PhpVal) {
    IsSetOn(asset, "id") && IsSetOn(asset, "src")
  }

  /** `$map[$asset['id']] = $asset['src']` for each mapped asset, in order, onto `acc`. */
  function AssetsMapFrom(acc: seq<Pair>, assets: seq<PhpVal>): Result<seq<Pair>>
    decreases assets
  {
    if assets == [] then Ok(acc)
    else if IsMappedAsset(assets[0]) then
      match KeyOf(Index(assets[0].entries, StrKey("id")))
      case Err(e) => Err(e)
      case Ok(k) => AssetsMapFrom(Assign(acc, k, Index(assets[0].entries, StrKey("src"))), assets[1..])
    else AssetsMapFrom(acc, assets[1..])
  }

  /** `get_preload_assets_map()` for the current skin, if any. */
  function PreloadAssetsMap(skin: Option<Skin>): Result<seq<Pair>> {
    match skin
    case None => Ok([])
    case Some(s) =>
      match s.frontendFiles
      case None => Ok([])
      case Some(assets) => AssetsMapFrom([], assets)
  }

  /** The `src` of the last mapped asset whose `id` gives the key `k`. */
  function LastSrcFor(assets: seq<PhpVal>, k: Key): Option<PhpVal> {
    if assets == [] then None
    else match LastSrcFor(assets[1..], k)
      case Some(src) => Some(src)
      case None =>
        if IsMappedAsset(assets[0]) && KeyOf(Index(assets[0].entries, StrKey("id"))) == Ok(k)
        then Some(Index(assets[0].entries, StrKey("src")))
        else None
  }

  /** A mapped asset whose `id` is an array, which PHP refuses as a key. */
  predicate HasArrayIdAt(asset: PhpVal) {
    IsMappedAsset(asset) && Index(asset.entries, StrKey("id")).PArr?
  }

  /** Some mapped asset has an array as its `id`. */
  predicate HasArrayId(assets: seq<PhpVal>) {
    exists a :: a in assets && HasArrayIdAt(a)
  }

  /**
   * The map fails exactly when some mapped asset has an array as its id;
   * otherwise each key holds the `src` of the last mapped asset with that
   * id (later assets overwrite earlier ones) and every other key keeps
   * what `acc` held.
   */
  lemma AssetsMapFromLookup(acc: seq<Pair>, assets: seq<PhpVal>)
    ensures AssetsMapFrom(acc, assets).Err? <==> HasArrayId(assets)
    ensures AssetsMapFrom(acc, assets).Ok? ==>
      forall k :: Lookup(AssetsMapFrom(acc, assets).value, k) ==
        (if LastSrcFor(assets, k).Some? then LastSrcFor(assets, k) else Lookup(acc, k))
    ensures AssetsMapFrom(acc, assets).Ok? && WellFormed(acc) ==> WellFormed(AssetsMapFrom(acc, assets).value)
  {
    AssetsMapFromErr(acc, assets);
    AssetsMapFromValues(acc, assets);
    AssetsMapFromWellFormed(acc, assets);
  }

  lemma HasArrayIdCons(assets: seq<PhpVal>)
    requires assets != []
    ensures HasArrayId(assets) <==> HasArrayIdAt(assets[0]) || HasArrayId(assets[1..])
  {
    assert assets == [assets[0]] + assets[1..];
  }

  lemma {:induction false} AssetsMapFromErr(acc: seq<Pair>, assets: seq<PhpVal>)
    ensures AssetsMapFrom(acc, assets).Err? <==> HasArrayId(assets)
    decreases assets
  {
    if assets != [] {
      HasArrayIdCons(assets);
      if IsMappedAsset(assets[0]) {
        var id := Index(assets[0].entries, StrKey("id"));
        if KeyOf(id).Ok? {
          AssetsMapFromErr(Assign(acc, KeyOf(id).value, Index(assets[0].entries, StrKey("src"))), assets[1..]);
        }
      } else {
        AssetsMapFromErr(acc, assets[1..]);
      }
    }
  }

  lemma {:induction false} AssetsMapFromValues(acc: seq<Pair>, assets: seq<PhpVal>)
    ensures AssetsMapFrom(acc, assets).Ok? ==>
      forall k :: Lookup(AssetsMapFrom(acc, assets).value, k) ==
        (if LastSrcFor(assets, k).Some? then LastSrcFor(assets, k) else Lookup(acc, k))
    decreases assets
  {
    if assets != [] {
      if IsMappedAsset(assets[0]) {
        var id := Index(assets[0].entries, StrKey("id"));
        if KeyOf(id).Ok? {
          AssetsMapFromValues(Assign(acc, KeyOf(id).value, Index(assets[0].entries, StrKey("src"))), assets[1..]);
        }
      } else {
        AssetsMapFromValues(acc, assets[1..]);
      }
    }
  }

  lemma {:induction false} AssetsMapFromWellFormed(acc: seq<Pair>, assets: seq<PhpVal>)
    ensures AssetsMapFrom(acc, assets).Ok? && WellFormed(acc) ==> WellFormed(AssetsMapFrom(acc, assets).value)
    decreases assets
  {
    if assets != [] {
      if IsMappedAsset(assets[0]) {
        var id := Index(assets[0].entries, StrKey("id"));
        if KeyOf(id).Ok? {
          AssetsMapFromWellFormed(Assign(acc, KeyOf(id).value, Index(assets[0].entries, StrKey("src"))), assets[1..]);
        }
      } else {
        AssetsMapFromWellFormed(acc, assets[1..]);
      }
    }
  }

  /** No skin, or a skin without `get_frontend_files`, gives an empty map. */
  lemma PreloadAssetsMapEmpty(skin: Option<Skin>)
    requires skin.None? || skin.value.frontendFiles.None?
    ensures PreloadAssetsMap(skin) == Ok([])
  {
  }

  /** `get_preload_assets_map()`, building `$map` asset by asset. */
  method GetPreloadAssetsMap(skin: Option<Skin>) returns (r: Result<seq<Pair>>)
    ensures r == PreloadAssetsMap(skin)
  {
    if skin.None? || skin.value.frontendFiles.None? {
      return Ok([]);
    }
    var assets := skin.value.frontendFiles.value;
    var map_: seq<Pair> := [];
    var i := 0;
    while i < |assets|
      invariant 0 <= i <= |assets|
      invariant AssetsMapFrom(map_, assets[i..]) == AssetsMapFrom([], assets)
    {
      assert assets[i..][1..] == assets[i + 1..];
      var asset := assets[i];
      if IsMappedAsset(asset) {
        var key := KeyOf(Index(asset.entries, StrKey("id")));
        if key.Err? {
          return Err(key.error);
        }
        map_ := Assign(map_, key.value, Index(asset.entries, StrKey("src")));
      }
      i := i + 1;
    }
    assert assets[i..] == [];
    r := Ok(map_);
  }

  /** `get_preload_images_map()` and `get_preload_modules_map()`: both empty. */
  const PreloadImagesMap: seq<Pair> := []
  const PreloadModulesMap: seq<Pair> := []

  /** `add_preload_assets($map)`. */
  function AddPreloadAssets(map_: seq<Pair>, skin: Option<Skin>): Result<seq<Pair>> {
    match PreloadAssetsMap(skin)
    case Ok(own) => Ok(ArrayMerge(map_, own))
    case Err(e) => Err(e)
  }

  /** `add_preload_images($map)` and `add_preload_modules($map)`. */
  function AddPreloadImages(map_: seq<Pair>): seq<Pair> {
    ArrayMerge(map_, PreloadImagesMap)
  }

  function AddPreloadModules(map_: seq<Pair>): seq<Pair> {
    ArrayMerge(map_, PreloadModulesMap)
  }

  /**
   * On string keys the widget's own assets win and every other entry of
   * the incoming map is kept; the incoming list entries come first.
   */
  lemma AddPreloadAssetsKeys(map_: seq<Pair>, skin: Option<Skin>, s: string)
    requires WellFormed(map_)
    ensures AddPreloadAssets(map_, skin).Ok? ==>
      var own := PreloadAssetsMap(skin).value;
      Lookup(AddPreloadAssets(map_, skin).value, StrKey(s)) ==
        (if KeyExists(own, StrKey(s)) then Lookup(own, StrKey(s)) else Lookup(map_, StrKey(s))) &&
      IntKeyedValues(AddPreloadAssets(map_, skin).value) == IntKeyedValues(map_) + IntKeyedValues(own)
  {
    if PreloadAssetsMap(skin).Ok? {
      var own := PreloadAssetsMap(skin).value;
      if skin.Some? && skin.value.frontendFiles.Some? {
        AssetsMapFromLookup([], skin.value.frontendFiles.value);
      }
      ArrayMergeStringKeys(map_, own, s);
      ArrayMergeIntKeys(map_, own);
    }
  }

  /** The empty images and modules maps leave every string key as it was and keep the list entries in order. */
  lemma AddPreloadImagesKeepsMap(map_: seq<Pair>, s: string)
    requires WellFormed(map_)
    ensures Lookup(AddPreloadImages(map_), StrKey(s)) == Lookup(map_, StrKey(s))
    ensures Lookup(AddPreloadModules(map_), StrKey(s)) == Lookup(map_, StrKey(s))
    ensures IntKeyedValues(AddPreloadImages(map_)) == IntKeyedValues(map_)
  {
    ArrayMergeStringKeys(map_, [], s);
    ArrayMergeIntKeys(map_, []);
    assert IntKeyedValues(map_) + IntKeyedValues([]) == IntKeyedValues(map_);
  }

  /**
   * `get_prefetch_map()`: `posts` is what `get_posts_to_display()` returns,
   * as a list, when the widget has that method; `widgetId` is `get_id()`.
   */
  function PrefetchMap(posts: Option<seq<PhpVal>>, widgetId: string): Result<seq<Pair>> {
    match posts
    case None => Ok([])
    case Some(ps) =>
      if ps == [] || !Truthy(ps[0]) then Ok([])
      else
        match Offset(ps[0], "video")
        case Err(e) => Err(e)
        case Ok(video) =>
          if !Truthy(video) then Ok([])
          else if !video.PArr? then Err(ArrayKeyExistsError)
          else if !KeyExists(video.entries, StrKey("url")) || !Truthy(Index(video.entries, StrKey("url"))) then Ok([])
          else Ok([Pair(StringKey("Widget_Video_" + widgetId), Index(video.entries, StrKey("url")))])
  }

  /** The first post to display is an array whose `video` is an array with a truthy `url`. */
  predicate FirstPostHasVideoUrl(posts: Option<seq<PhpVal>>) {
    posts.Some? && posts.value != [] && posts.value[0].PArr? &&
    var video := Index(posts.value[0].entries, StrKey("video"));
    video.PArr? && KeyExists(video.entries, StrKey("url")) && Truthy(Index(video.entries, StrKey("url")))
  }

  /**
   * The prefetch map holds at most one entry, under the string key
   * `Widget_Video_<id>`, holding the first post's video URL; it holds it
   * exactly when that URL exists and is truthy.
   */
  lemma PrefetchMapShape(posts: Option<seq<PhpVal>>, widgetId: string)
    ensures PrefetchMap(posts, widgetId).Ok? ==> |PrefetchMap(posts, widgetId).value| <= 1
    ensures PrefetchMap(posts, widgetId).Ok? && PrefetchMap(posts, widgetId).value != [] ==>
      posts.Some? && posts.value != [] && posts.value[0].PArr? &&
      var video := Index(posts.value[0].entries, StrKey("video"));
      video.PArr? && KeyExists(video.entries, StrKey("url")) && Truthy(Index(video.entries, StrKey("url"))) &&
      PrefetchMap(posts, widgetId).value == [Pair(StrKey("Widget_Video_" + widgetId), Index(video.entries, StrKey("url")))]
    ensures FirstPostHasVideoUrl(posts) ==> PrefetchMap(posts, widgetId).Ok? && |PrefetchMap(posts, widgetId).value| == 1
  {
    var name := "Widget_Video_" + widgetId;
    assert name[0] == 'W';
    assert !IsCanonicalInt(name);
  }

  /**
   * The map fails only on a first post that is a non-empty string, or on a
   * truthy video that is not an array; without `get_posts_to_display` it is empty.
   */
  lemma PrefetchMapErrors(posts: Option<seq<PhpVal>>, widgetId: string)
    ensures posts.None? ==> PrefetchMap(posts, widgetId) == Ok([])
    ensures PrefetchMap(posts, widgetId).Err? <==>
      posts.Some? && posts.value != [] && Truthy(posts.value[0]) &&
      (posts.value[0].PStr? ||
       (posts.value[0].PArr? && Truthy(Index(posts.value[0].entries, StrKey("video"))) &&
        !Index(posts.value[0].entries, StrKey("video")).PArr?))
  {
  }

  /** `add_prefetch($map)`. */
  function AddPrefetch(map_: seq<Pair>, posts: Option<seq<PhpVal>>, widgetId: string): Result<seq<Pair>> {
    match PrefetchMap(posts, widgetId)
    case Ok(own) => Ok(ArrayMerge(map_, own))
    case Err(e) => Err(e)
  }

  /** The widget's prefetch entry, when there is one, replaces any entry of the incoming map under its key; all else is kept. */
  lemma AddPrefetchKeys(map_: seq<Pair>, posts: Option<seq<PhpVal>>, widgetId: string, s: string)
    requires WellFormed(map_)
    ensures AddPrefetch(map_, posts, widgetId).Ok? ==>
      var own := PrefetchMap(posts, widgetId).value;
      Lookup(AddPrefetch(map_, posts, widgetId).value, StrKey(s)) ==
        if KeyExists(own, StrKey(s)) then Lookup(own, StrKey(s)) else Lookup(map_, StrKey(s))
  {
    if PrefetchMap(posts, widgetId).Ok? {
      PrefetchMapShape(posts, widgetId);
      ArrayMergeStringKeys(map_, PrefetchMap(posts, widgetId).value, s);
    }
  }
}
