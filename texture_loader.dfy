/** The texture loader of the 3-D scene (TestGlCanvas3D/webgl-demo.ts): a
    texture handle that starts as a 1x1 opaque-blue placeholder and is
    overwritten at most once, when the fetched image has decoded, followed by
    either mipmap generation or clamp-to-edge wrapping with linear
    minification. The fetch, blob and image-decode continuations arrive as
    abstract events. */
module TextureLoader {

  // ---------------------------------------------------------------------
  // isPowerOf2 under JavaScript's 32-bit bitwise semantics
  // ---------------------------------------------------------------------

  const TwoTo32: int := 0x1_0000_0000

  /** The 32-bit pattern JavaScript's `&` works on (ToInt32 and ToUint32 share it). */
  function ToUint32(x: int): (r: nat)
    ensures r < TwoTo32
    ensures 0 <= x < TwoTo32 ==> r == x
  {
    x % TwoTo32
  }

  /** Bitwise AND of two non-negative integers, one bit at a time. */
  function BitAnd(a: nat, b: nat): nat
    decreases a
  {
    if a == 0 || b == 0 then 0
    else 2 * BitAnd(a / 2, b / 2) + (if a % 2 == 1 && b % 2 == 1 then 1 else 0)
  }

  /** `(value & (value - 1)) === 0`: the int32 result is zero exactly when
      its bit pattern is. On every positive 32-bit value the test is exact. */
  function IsPowerOf2(value: int): (r: bool)
    ensures 0 < value < TwoTo32 ==> (r <==> IsPowerOfTwo(value))
  {
    var lowBitsClear := BitAnd(ToUint32(value), ToUint32(value - 1)) == 0;
    if 0 < value < TwoTo32 then ClearLowestBit(value); lowBitsClear else lowBitsClear
  }

  function Pow2(k: nat): (r: nat)
    ensures r >= 1
  {
    if k == 0 then 1 else 2 * Pow2(k - 1)
  }

  /** Reference meaning: `v` is 2^k for some k. */
  ghost predicate IsPowerOfTwo(v: int)
  {
    exists k: nat :: Pow2(k) == v
  }

  lemma {:induction false} BitAndSelf(a: nat)
    ensures BitAnd(a, a) == a
  {
    if a != 0 {
      BitAndSelf(a / 2);
    }
  }

  lemma {:induction false} PowerOfTwoAboveOneIsEven(k: nat)
    requires Pow2(k) > 1
    ensures k > 0 && Pow2(k) % 2 == 0 && Pow2(k - 1) == Pow2(k) / 2
  {
  }

  /** `v & (v - 1)` clears the lowest set bit, so it is zero exactly for powers of two. */
  lemma {:induction false} ClearLowestBit(v: nat)
    requires v > 0
    ensures BitAnd(v, v - 1) == 0 <==> IsPowerOfTwo(v)
    decreases v
  {
    var m := v / 2;
    if v == 1 {
      assert Pow2(0) == v;
    } else if v % 2 == 0 {
      assert (v - 1) / 2 == m - 1;
      assert BitAnd(v, v - 1) == 2 * BitAnd(m, m - 1);
      ClearLowestBit(m);
      if IsPowerOfTwo(m) {
        var k: nat :| Pow2(k) == m;
        assert Pow2(k + 1) == v;
      }
      if IsPowerOfTwo(v) {
        var k: nat :| Pow2(k) == v;
        PowerOfTwoAboveOneIsEven(k);
        assert Pow2(k - 1) == m;
      }
    } else {
      assert (v - 1) / 2 == m;
      BitAndSelf(m);
      assert BitAnd(v, v - 1) == 2 * m;
      if IsPowerOfTwo(v) {
        var k: nat :| Pow2(k) == v;
        PowerOfTwoAboveOneIsEven(k);
        assert false;
      }
    }
  }

  /** The quirk: `0 & -1` is 0, so a zero dimension passes the test. */
  lemma ZeroPassesIsPowerOf2()
    ensures IsPowerOf2(0) && !IsPowerOfTwo(0)
  {
  }

  /** Only the low 32 bits are looked at: 2^32 + 1 passes the test too. */
  lemma IsPowerOf2Wraps(value: int)
    ensures IsPowerOf2(value + TwoTo32) == IsPowerOf2(value)
  {
    ToUint32Periodic(value);
    ToUint32Periodic(value - 1);
    assert value + TwoTo32 - 1 == (value - 1) + TwoTo32;
  }

  /** Adding 2^32 does not change the 32-bit pattern. */
  lemma ToUint32Periodic(x: int)
    ensures ToUint32(x + TwoTo32) == ToUint32(x)
  {
  }

  // ---------------------------------------------------------------------
  // Texture contents
  // ---------------------------------------------------------------------

  datatype PixelFormat = Rgba
  datatype PixelType = UnsignedByte

  /** Where level-0 pixels came from: an explicit byte array, or a decoded image element. */
  datatype PixelSource = Pixels(bytes: seq<int>) | DecodedImage(imageWidth: nat, imageHeight: nat)

  /** One `texImage2D` upload into level `level` of the bound texture. */
  datatype TexImage = TexImage(level: nat, internalFormat: PixelFormat, width: nat, height: nat,
                               border: nat, srcFormat: PixelFormat, srcType: PixelType, source: PixelSource)

  datatype TexParam = WrapS | WrapT | MinFilter
  datatype ParamValue = ClampToEdge | Linear

  /** The observable state of the texture object: its level-0 image, whether
      `generateMipmap` ran, and the parameters set on it by `texParameteri`. */
  datatype TexObject = TexObject(image: TexImage, mipmapped: bool, params: map<TexParam, ParamValue>)

  const Level: nat := 0
  const OpaqueBlue: seq<int> := [0, 0, 255, 255]

  /** The synchronous placeholder upload: a single RGBA pixel. */
  function PlaceholderImage(): TexImage
  {
    TexImage(Level, Rgba, 1, 1, 0, Rgba, UnsignedByte, Pixels(OpaqueBlue))
  }

  /** The upload of a decoded image; width and height come from the image. */
  function UploadedImage(width: nat, height: nat): TexImage
  {
    TexImage(Level, Rgba, width, height, 0, Rgba, UnsignedByte, DecodedImage(width, height))
  }

  function PlaceholderTexture(): TexObject
  {
    TexObject(PlaceholderImage(), false, map[])
  }

  const ClampParams: map<TexParam, ParamValue> := map[WrapS := ClampToEdge, WrapT := ClampToEdge, MinFilter := Linear]

  /** What the `image.onload` continuation leaves in the texture. */
  function OnLoad(t: TexObject, width: nat, height: nat): (r: TexObject)
    ensures r.image == UploadedImage(width, height)
    ensures IsPowerOf2(width) && IsPowerOf2(height) ==> r.mipmapped && r.params == t.params
    ensures !(IsPowerOf2(width) && IsPowerOf2(height)) ==>
              && r.mipmapped == t.mipmapped
              && r.params.Keys == t.params.Keys + {WrapS, WrapT, MinFilter}
              && r.params[WrapS] == ClampToEdge && r.params[WrapT] == ClampToEdge && r.params[MinFilter] == Linear
  {
    var powerOfTwo := IsPowerOf2(width) && IsPowerOf2(height);
    if powerOfTwo then
      TexObject(UploadedImage(width, height), true, t.params)
    else
      var clamped := t.params[WrapS := ClampToEdge][WrapT := ClampToEdge][MinFilter := Linear];
      TexObject(UploadedImage(width, height), t.mipmapped, clamped)
  }

  // ---------------------------------------------------------------------
  // The asynchronous load as a state machine
  // ---------------------------------------------------------------------

  /** Where the promise chain started by `fetch(url)` stands. `Failed` covers
      a rejected chain (network error, a response that is not ok, a body that
      cannot be read) and an image that never fires `onload`. */
  datatype Stage = Fetching | ReadingBody | Decoding | Uploaded | Failed

  /** What the environment can report to the pending load. */
  datatype LoadEvent =
    | NetworkError
    | Response(ok: bool)
    | BodyRead(ok: bool)
    | ImageLoaded(width: nat, height: nat)
    | ImageError

  datatype LoadState = LoadState(stage: Stage, texture: TexObject)

  function Initial(): LoadState
  {
    LoadState(Fetching, PlaceholderTexture())
  }

  /** How far along the chain a stage is; both final stages rank highest. */
  function Rank(stage: Stage): nat
  {
    match stage
    case Fetching => 0
    case ReadingBody => 1
    case Decoding => 2
    case Uploaded => 3
    case Failed => 3
  }

  /** Whether `e` is what the chain waits for at `stage`: the fetch settles
      while fetching, the body is read after a response, and the image
      decodes or fails once the body is in hand. */
  predicate Fits(stage: Stage, e: LoadEvent)
  {
    match e
    case NetworkError => stage == Fetching
    case Response(_) => stage == Fetching
    case BodyRead(_) => stage == ReadingBody
    case ImageLoaded(_, _) => stage == Decoding
    case ImageError => stage == Decoding
  }

  /** The reports that reject the chain: a network error, a response or a
      body that is not ok, an image that fails to decode. */
  predicate Rejects(e: LoadEvent)
  {
    e.NetworkError? || (e.Response? && !e.ok) || (e.BodyRead? && !e.ok) || e.ImageError?
  }

  /** One continuation of the chain. An event that cannot occur at the
      current stage changes nothing and one that can always changes the
      stage: a rejecting report ends the chain in `Failed`, any other moves
      it exactly one stage forward. Only `onload` touches the texture, and it
      ends the chain with the decoded image uploaded. */
  function Step(s: LoadState, e: LoadEvent): (r: LoadState)
    ensures r == s <==> !Fits(s.stage, e)
    ensures Fits(s.stage, e) && Rejects(e) ==> r.stage == Failed
    ensures Fits(s.stage, e) && !Rejects(e) ==> r.stage != Failed && Rank(r.stage) == Rank(s.stage) + 1
    ensures Rank(r.stage) >= Rank(s.stage)
    ensures Rank(r.stage) == Rank(s.stage) ==> r == s
    ensures r.texture != s.texture ==>
              && s.stage == Decoding && e.ImageLoaded? && r.stage == Uploaded
              && r.texture.image == UploadedImage(e.width, e.height)
  {
    match (s.stage, e)
    case (Fetching, NetworkError) => s.(stage := Failed)
    case (Fetching, Response(ok)) => s.(stage := if ok then ReadingBody else Failed)
    case (ReadingBody, BodyRead(ok)) => s.(stage := if ok then Decoding else Failed)
    case (Decoding, ImageLoaded(w, h)) => LoadState(Uploaded, OnLoad(s.texture, w, h))
    case (Decoding, ImageError) => s.(stage := Failed)
    case _ => s
  }

  /** The chain after a sequence of continuations. It never moves back, and
      a run that ends where it began (by rank) changed nothing. */
  function Run(s: LoadState, events: seq<LoadEvent>): (r: LoadState)
    ensures Rank(r.stage) >= Rank(s.stage)
    ensures Rank(r.stage) == Rank(s.stage) ==> r == s
    decreases |events|
  {
    if events == [] then s else Run(Step(s, events[0]), events[1..])
  }

  /** How many events along the run changed the texture's contents. */
  function Uploads(s: LoadState, events: seq<LoadEvent>): nat
    decreases |events|
  {
    if events == [] then 0
    else
      var s' := Step(s, events[0]);
      (if s'.texture != s.texture then 1 else 0) + Uploads(s', events[1..])
  }

  /** Before any continuation runs, the texture is the 1x1 opaque-blue placeholder at level 0. */
  lemma PlaceholderBeforeAnyEvent()
    ensures Run(Initial(), []).texture.image.level == 0
    ensures Run(Initial(), []).texture.image.width == 1 && Run(Initial(), []).texture.image.height == 1
    ensures Run(Initial(), []).texture.image.source == Pixels([0, 0, 255, 255])
    ensures !Run(Initial(), []).texture.mipmapped && Run(Initial(), []).texture.params == map[]
  {
  }

  /** Once the chain has failed, nothing ever changes again. */
  lemma {:induction false} FailedIsFinal(s: LoadState, events: seq<LoadEvent>)
    requires s.stage == Failed
    ensures Run(s, events) == s
    decreases |events|
  {
    if events != [] {
      FailedIsFinal(Step(s, events[0]), events[1..]);
    }
  }

  /** After the upload, nothing ever changes again. */
  lemma {:induction false} UploadedIsFinal(s: LoadState, events: seq<LoadEvent>)
    requires s.stage == Uploaded
    ensures Run(s, events) == s
    decreases |events|
  {
    if events != [] {
      UploadedIsFinal(Step(s, events[0]), events[1..]);
    }
  }

  /** A response that is not ok rejects the chain before any upload: the
      texture is the placeholder forever after. */
  lemma NotOkResponseKeepsPlaceholder(events: seq<LoadEvent>)
    ensures Run(Initial(), [Response(false)] + events).texture == PlaceholderTexture()
  {
    assert ([Response(false)] + events)[1..] == events;
    FailedIsFinal(Step(Initial(), Response(false)), events);
  }

  /** Until the upload the texture is the placeholder; after it, it holds a
      decoded image. */
  lemma {:induction false} PlaceholderUntilUploaded(s: LoadState, events: seq<LoadEvent>)
    requires s.stage != Uploaded ==> s.texture == PlaceholderTexture()
    requires s.stage == Uploaded ==> s.texture.image.source.DecodedImage?
    ensures Run(s, events).stage != Uploaded ==> Run(s, events).texture == PlaceholderTexture()
    ensures Run(s, events).stage == Uploaded ==> Run(s, events).texture.image.source.DecodedImage?
    decreases |events|
  {
    if events != [] {
      PlaceholderUntilUploaded(Step(s, events[0]), events[1..]);
    }
  }

  /** The two settings `onload` can leave on a fresh handle: mipmaps and no
      parameter, or no mipmaps and exactly the clamp/linear parameters. */
  predicate UploadSettings(t: TexObject)
  {
    t.image.source.DecodedImage?
    && ((t.mipmapped && t.params == map[]) || (!t.mipmapped && t.params == ClampParams))
  }

  /** Along any run from a placeholder, an uploaded texture carries one of
      the two post-upload settings. */
  lemma {:induction false} UploadSettingsHold(s: LoadState, events: seq<LoadEvent>)
    requires s.stage != Uploaded ==> s.texture == PlaceholderTexture()
    requires s.stage == Uploaded ==> UploadSettings(s.texture)
    ensures Run(s, events).stage != Uploaded ==> Run(s, events).texture == PlaceholderTexture()
    ensures Run(s, events).stage == Uploaded ==> UploadSettings(Run(s, events).texture)
    decreases |events|
  {
    if events != [] {
      var s' := Step(s, events[0]);
      if s'.stage == Uploaded && s.stage != Uploaded {
        var t := s'.texture;
        if !t.mipmapped {
          assert t.params == ClampParams;
        }
      }
      UploadSettingsHold(s', events[1..]);
    }
  }

  /** Whatever the environment reports, the contents change at most once
      from a state that has not yet uploaded, and never after. */
  lemma {:induction false} AtMostOneUpload(s: LoadState, events: seq<LoadEvent>)
    ensures s.stage == Uploaded || s.stage == Failed ==> Uploads(s, events) == 0
    ensures Uploads(s, events) <= 1
    decreases |events|
  {
    if events != [] {
      var s' := Step(s, events[0]);
      AtMostOneUpload(s', events[1..]);
      if s'.texture != s.texture {
        assert s'.stage == Uploaded;
      }
    }
  }

  /** The texture returned by the loader is replaced at most once. */
  lemma ReplacedAtMostOnce(events: seq<LoadEvent>)
    ensures Uploads(Initial(), events) <= 1
  {
    AtMostOneUpload(Initial(), events);
  }

  /** A successful fetch, body read and decode of a `width` x `height` image
      leaves the decoded image in the texture; mipmaps exactly when both
      dimensions pass `IsPowerOf2` and then no parameter is set, otherwise
      both wraps clamp to the edge, minification is linear and no mipmaps. */
  lemma SuccessfulLoad(width: nat, height: nat)
    ensures Run(Initial(), [Response(true), BodyRead(true), ImageLoaded(width, height)])
              == Step(Step(Step(Initial(), Response(true)), BodyRead(true)), ImageLoaded(width, height))
    ensures Run(Initial(), [Response(true), BodyRead(true), ImageLoaded(width, height)]).stage == Uploaded
    ensures Run(Initial(), [Response(true), BodyRead(true), ImageLoaded(width, height)]).texture.image
              == UploadedImage(width, height)
    ensures Run(Initial(), [Response(true), BodyRead(true), ImageLoaded(width, height)]).texture.mipmapped
              == (IsPowerOf2(width) && IsPowerOf2(height))
    ensures Run(Initial(), [Response(true), BodyRead(true), ImageLoaded(width, height)]).texture.params
              == if IsPowerOf2(width) && IsPowerOf2(height) then map[] else ClampParams
  {
    var events := [Response(true), BodyRead(true), ImageLoaded(width, height)];
    var s1 := Step(Initial(), events[0]);
    var s2 := Step(s1, events[1]);
    var s3 := Step(s2, events[2]);
    assert events[1..][1..][1..] == [];
    calc {
      Run(Initial(), events);
      Run(s1, events[1..]);
      Run(s2, events[1..][1..]);
      Run(s3, events[1..][1..][1..]);
      s3;
    }
  }

  /** A 2x2 image gets mipmaps and no parameters. */
  lemma TwoByTwoIsMipmapped()
    ensures OnLoad(PlaceholderTexture(), 2, 2).mipmapped
    ensures OnLoad(PlaceholderTexture(), 2, 2).params == map[]
  {
    assert BitAnd(2, 1) == 0;
  }

  /** A 3x3 image is clamped to the edge with linear minification and no mipmaps. */
  lemma ThreeByThreeIsClamped()
    ensures !OnLoad(PlaceholderTexture(), 3, 3).mipmapped
    ensures OnLoad(PlaceholderTexture(), 3, 3).params == ClampParams
  {
    assert BitAnd(1, 1) == 1;
    assert BitAnd(3, 2) == 2;
  }

  /** An image with a zero dimension and a power-of-two other dimension takes the mipmap branch. */
  lemma ZeroWidthIsMipmapped(height: nat)
    requires 0 < height < TwoTo32 && IsPowerOfTwo(height)
    ensures OnLoad(PlaceholderTexture(), 0, height).mipmapped
  {
  }

  // ---------------------------------------------------------------------
  // The texture handle
  // ---------------------------------------------------------------------

  /** The handle `loadTexture` creates and returns. The continuations of the
      fetch it starts close over this same handle, so the object carries the
      stage of that pending load next to the texture's contents. */
  class Texture {
    var image: TexImage
    var mipmapped: bool
    var params: map<TexParam, ParamValue>
    var stage: Stage

    function Contents(): TexObject
      reads this
    {
      TexObject(image, mipmapped, params)
    }

    function State(): LoadState
      reads this
    {
      LoadState(stage, Contents())
    }

    /** `createTexture` followed by the placeholder upload, with the fetch started. */
    constructor ()
      ensures State() == Initial()
    {
      image := PlaceholderImage();
      mipmapped := false;
      params := map[];
      stage := Fetching;
    }

    /** Run the continuation for `e`. On a decoded image the handle is
        rebound and overwritten, then mipmapped or clamped. */
    method Deliver(e: LoadEvent)
      modifies this
      ensures State() == Step(old(State()), e)
    {
      match (stage, e)
      case (Fetching, NetworkError) =>
        stage := Failed;
      case (Fetching, Response(ok)) =>
        stage := if ok then ReadingBody else Failed;
      case (ReadingBody, BodyRead(ok)) =>
        stage := if ok then Decoding else Failed;
      case (Decoding, ImageLoaded(w, h)) =>
        ghost var before := Contents();
        image := UploadedImage(w, h);
        if IsPowerOf2(w) && IsPowerOf2(h) {
          mipmapped := true;
        } else {
          params := params[WrapS := ClampToEdge];
          params := params[WrapT := ClampToEdge];
          params := params[MinFilter := Linear];
        }
        stage := Uploaded;
        assert Contents() == OnLoad(before, w, h);
      case (Decoding, ImageError) =>
        stage := Failed;
      case _ =>
    }
  }

  /** `loadTexture(gl, url)`: returns at once with a usable handle holding the
      placeholder; the `url` is only passed to the fetch, whose outcome
      arrives later through `Deliver`. */
  method LoadTexture(url: string) returns (texture: Texture)
    ensures fresh(texture)
    ensures texture.State() == Initial()
  {
    texture := new Texture();
  }
}
