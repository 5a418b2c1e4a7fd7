/** Preview-size selection of the plain Camera2 sample activity: prefer the
    requested size itself, else the smallest supported size that contains a
    minSize x minSize square, else the first supported size. */
module Camera2ApiActivity {
  import opened JavaInt
  import opened Sizes

  /** The smallest square side a preview size must contain. */
  const MINIMUM_PREVIEW_SIZE: int := 320

  /** `Math.max(Math.min(width, height), MINIMUM_PREVIEW_SIZE)`. */
  function MinSize(width: int, height: int): (m: int)
    ensures m >= MINIMUM_PREVIEW_SIZE
    ensures m >= width || m >= height
    ensures m == MINIMUM_PREVIEW_SIZE || m == width || m == height
    ensures m > MINIMUM_PREVIEW_SIZE ==> m <= width && m <= height
  {
    var shorter := if width <= height then width else height;
    if shorter >= MINIMUM_PREVIEW_SIZE then shorter else MINIMUM_PREVIEW_SIZE
  }

  /** A choice is big enough when BOTH of its sides reach the one threshold
      (not when each side reaches the requested side of the same name). */
  predicate BigEnough(option: Size, minSize: int)
  {
    option.height >= minSize && option.width >= minSize
  }

  /** The `bigEnough` list the loop builds: the big-enough choices in order. */
  function BigEnoughOf(choices: seq<Size>, minSize: int): (r: seq<Size>)
    ensures |r| <= |choices|
    ensures forall x :: x in r <==> x in choices && BigEnough(x, minSize)
  {
    if choices == [] then []
    else
      var front := BigEnoughOf(choices[..|choices| - 1], minSize);
      var last := choices[|choices| - 1];
      assert forall x :: x in choices <==> x in choices[..|choices| - 1] || x == last;
      if BigEnough(last, minSize) then front + [last] else front
  }

  /** `chooseOptimalSize(choices, width, height)`. An empty `choices` makes the
      source index `choices[0]` out of bounds, hence the first precondition. */
  method ChooseOptimalSize(choices: seq<Size>, width: int, height: int) returns (r: Size)
    requires |choices| > 0
    requires AllJavaSizes(choices)
    ensures r in choices
    ensures Size(width, height) in choices ==> r == Size(width, height)
    ensures Size(width, height) !in choices &&
            (exists c :: c in choices && BigEnough(c, MinSize(width, height))) ==>
              r in choices && BigEnough(r, MinSize(width, height)) &&
              forall c :: c in choices && BigEnough(c, MinSize(width, height)) ==> Area(r) <= Area(c)
    ensures Size(width, height) !in choices &&
            (forall c :: c in choices ==> !BigEnough(c, MinSize(width, height))) ==>
              r == choices[0]
  {
    var minSize := MinSize(width, height);
    var desiredSize := Size(width, height);

    var exactSizeFound := false;
    var bigEnough: seq<Size> := [];
    for i := 0 to |choices|
      invariant exactSizeFound <==> desiredSize in choices[..i]
      invariant bigEnough == BigEnoughOf(choices[..i], minSize)
    {
      var option := choices[i];
      assert choices[..i + 1] == choices[..i] + [option];
      assert choices[..i + 1][..i] == choices[..i];
      if option == desiredSize {
        exactSizeFound := true;
      }
      if BigEnough(option, minSize) {
        bigEnough := bigEnough + [option];
      }
    }
    assert choices[..|choices|] == choices;

    if exactSizeFound {
      return desiredSize;
    }
    if |bigEnough| > 0 {
      assert forall i :: 0 <= i < |bigEnough| ==> bigEnough[i] in choices;
      r := MinByArea(bigEnough);
    } else {
      r := choices[0];
    }
  }
}
