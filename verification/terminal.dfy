/**
 * Terminal geometry (src/pres/terminal.rs): the size read from `tput`, the
 * minimum and optimal sizes, the full-screen box and the layout arithmetic
 * on 16-bit unsigned integers.
 */
module Terminal {
  import opened Common
  import opened Text

  type U16 = x: int | 0 <= x < 0x1_0000

  /** What one `tput` call printed; `None` when it could not run or its output was not UTF-8. */
  type TputOutput = Option<string>

  /** The two `tput` readings behind one `get_size`: `tput cols`, then `tput lines`. */
  datatype TputReadings = TputReadings(cols: TputOutput, lines: TputOutput)

  const FallbackWidth: U16 := 80
  const FallbackHeight: U16 := 24

  /** `str::parse::<u16>()` of the trimmed output of one `tput` call. */
  function ParseTput(out: TputOutput): (r: Option<U16>)
    ensures r.Some? ==> out.Some? && ParseUnsigned(Trim(out.value), U16Limit) == Some(r.value as nat)
  {
    if out.None? then None
    else match ParseUnsigned(Trim(out.value), U16Limit)
      case None => None
      case Some(v) => Some(v as U16)
  }

  /**
   * `get_size`: columns and lines when both readings parse as `u16`
   * (`tput lines` is only consulted once `tput cols` parsed), else 80 x 24.
   */
  function GetSize(readings: TputReadings): (size: (U16, U16))
    ensures ParseTput(readings.cols).None? ==> size == (FallbackWidth, FallbackHeight)
    ensures ParseTput(readings.cols).Some? && ParseTput(readings.lines).None? ==> size == (FallbackWidth, FallbackHeight)
    ensures ParseTput(readings.cols).Some? && ParseTput(readings.lines).Some? ==>
      size == (ParseTput(readings.cols).value, ParseTput(readings.lines).value)
  {
    match ParseTput(readings.cols)
    case None => (FallbackWidth, FallbackHeight)
    case Some(cols) =>
      match ParseTput(readings.lines)
      case None => (FallbackWidth, FallbackHeight)
      case Some(lines) => (cols, lines)
  }

  /** A terminal that prints its size in decimal, possibly padded with White_Space, is read exactly. */
  lemma GetSizeReadsDecimal(w: U16, h: U16, pad: string)
    requires forall i :: 0 <= i < |pad| ==> IsWhitespace(pad[i])
    ensures GetSize(TputReadings(Some(ShowNat(w) + pad), Some(ShowNat(h) + pad))) == (w, h)
  {
    TrimPadded(ShowNat(w), pad);
    TrimPadded(ShowNat(h), pad);
    ParseShowNat(w, U16Limit);
    ParseShowNat(h, U16Limit);
  }

  /** Trailing White_Space after a run of digits is removed by `Trim`. */
  lemma TrimPadded(digits: string, pad: string)
    requires |digits| > 0 && AllDigits(digits)
    requires forall i :: 0 <= i < |pad| ==> IsWhitespace(pad[i])
    ensures Trim(digits + pad) == digits
  {
    assert (digits + pad)[0] == digits[0];
    assert TrimStart(digits + pad) == digits + pad;
    TrimEndPadded(digits, pad);
  }

  lemma {:induction false} TrimEndPadded(digits: string, pad: string)
    requires |digits| > 0 && !IsWhitespace(digits[|digits| - 1])
    requires forall i :: 0 <= i < |pad| ==> IsWhitespace(pad[i])
    ensures TrimEnd(digits + pad) == digits
    decreases |pad|
  {
    if |pad| == 0 {
      assert digits + pad == digits;
    } else {
      assert (digits + pad)[|digits + pad| - 1] == pad[|pad| - 1];
      assert (digits + pad)[..|digits + pad| - 1] == digits + pad[..|pad| - 1];
      TrimEndPadded(digits, pad[..|pad| - 1]);
    }
  }

  class Terminal {
    var width: U16
    var height: U16
    const minWidth: U16 := 80
    const minHeight: U16 := 24
    const optimalWidth: U16 := 100
    const optimalHeight: U16 := 30

    /** `Terminal::new`: the current size, with the fixed minimum and optimal sizes. */
    constructor (readings: TputReadings)
      ensures (width, height) == GetSize(readings)
    {
      var size := GetSize(readings);
      width, height := size.0, size.1;
    }

    /** `update_size`: overwrites the stored size with a fresh reading. */
    method UpdateSize(readings: TputReadings)
      modifies this
      ensures (width, height) == GetSize(readings)
    {
      var size := GetSize(readings);
      width, height := size.0, size.1;
    }

    predicate IsValidSize()
      reads this
    {
      width >= minWidth && height >= minHeight
    }

    predicate IsOptimalSize()
      reads this
    {
      width >= optimalWidth && height >= optimalHeight
    }

    /** `get_box_dimensions`: the box fills the screen and is never zero-sized. */
    function GetBoxDimensions(): (r: (U16, U16, U16, U16))
      reads this
      ensures r.0 == 0 && r.1 == 0
      ensures r.2 >= 1 && r.3 >= 1
      ensures r.2 >= width && r.3 >= height
      ensures width >= 1 ==> r.2 == width
      ensures height >= 1 ==> r.3 == height
    {
      (0, 0, if width >= 1 then width else 1, if height >= 1 then height else 1)
    }

    /**
     * `get_max_visible_items`: the box height less ten rows of chrome, at
     * least five.  The `u16` subtraction underflows below ten rows, hence the
     * precondition.
     */
    function GetMaxVisibleItems(): (n: nat)
      reads this
      requires height >= 10
      ensures height >= 15 ==> n == height - 10
      ensures height < 15 ==> n == 5
      ensures n >= 5
    {
      var boxHeight := GetBoxDimensions().3;
      if boxHeight - 10 >= 5 then boxHeight - 10 else 5
    }

    /**
     * `calculate_required_height`: content, header and footer lines plus four
     * margin and two border rows, cast to `u16` (wrapping), at least `minHeight`.
     */
    function CalculateRequiredHeight(contentLines: nat, headerLines: nat, footerLines: nat): (r: U16)
      ensures r >= minHeight
      ensures contentLines + headerLines + footerLines + 6 < 0x1_0000 ==>
        r == if contentLines + headerLines + footerLines + 6 >= minHeight
             then contentLines + headerLines + footerLines + 6 else minHeight
    {
      var required := (contentLines + headerLines + footerLines + 4 + 2) % 0x1_0000;
      if required >= minHeight then required else minHeight
    }

    /**
     * `try_resize`: asks the terminal emulator for `w` x `h` and reports
     * whether the size read back afterwards matches; the stored size is not
     * updated.
     */
    function TryResize(w: U16, h: U16, after: TputReadings): (ok: bool)
      ensures ok <==> GetSize(after) == (w, h)
    {
      var size := GetSize(after);
      size.0 == w && size.1 == h
    }

    /**
     * `request_optimal_size`: nothing is requested when the terminal is
     * already optimal; otherwise the optimal size is requested and the
     * answer is whether the terminal then reports exactly that size.
     */
    method RequestOptimalSize(after: TputReadings) returns (ok: bool, request: Option<(U16, U16)>)
      ensures IsOptimalSize() ==> ok && request == None
      ensures !IsOptimalSize() ==>
        (request == Some((optimalWidth, optimalHeight)) && (ok <==> GetSize(after) == (optimalWidth, optimalHeight)))
    {
      if !IsOptimalSize() {
        request := Some((optimalWidth, optimalHeight));
        ok := TryResize(optimalWidth, optimalHeight, after);
      } else {
        ok, request := true, None;
      }
    }

    /**
     * `resize_for_content`: a resize to the optimal width and the required
     * height is requested only when the terminal is too short or not of the
     * optimal width.
     */
    method ResizeForContent(contentLines: nat, headerLines: nat, footerLines: nat, after: TputReadings)
      returns (ok: bool, request: Option<(U16, U16)>)
      ensures var required := CalculateRequiredHeight(contentLines, headerLines, footerLines);
        (request.Some? <==> (required > height || width != optimalWidth))
        && (request.Some? ==> request.value == (optimalWidth, required) && (ok <==> GetSize(after) == request.value))
        && (request.None? ==> ok)
    {
      var requiredHeight := CalculateRequiredHeight(contentLines, headerLines, footerLines);
      var requiredWidth := optimalWidth;
      if requiredHeight > height || requiredWidth != width {
        request := Some((requiredWidth, requiredHeight));
        ok := TryResize(requiredWidth, requiredHeight, after);
      } else {
        ok, request := true, None;
      }
    }
  }

  /** The optimal size is at least the minimum size, so an optimal terminal is a valid one. */
  lemma OptimalIsValid(t: Terminal)
    ensures t.IsOptimalSize() ==> t.IsValidSize()
  {
  }
}
