// The rectangle a frame occupies in its window, per scale mode (wl_viewport_apply).

module AspectFit {

  datatype Scale = OneToOne | Stretch | Aspect

  datatype Size = Size(w: int, h: int)

  predicate Positive(s: Size) {
    s.w > 0 && s.h > 0
  }

  /** A missing buffer size is taken from the window. */
  function BufferSize(win: Size, buf: Size): (r: Size)
    ensures Positive(r)
  {
    if buf.w <= 0 || buf.h <= 0
    then Size(if win.w > 0 then win.w else 1, if win.h > 0 then win.h else 1)
    else buf
  }

  /** The larger of the two candidate fits that stays inside the window, before rounding is undone. */
  function Candidate(win: Size, buf: Size): Size
    requires Positive(win) && Positive(buf)
  {
    var byH := win.h * buf.w / buf.h;
    if byH <= win.w then Size(byH, win.h) else Size(win.w, win.w * buf.h / buf.w)
  }

  /** A side within one pixel of the window's is the window's. */
  function Snap(side: int, win: int): int {
    if win - 2 < side < win + 2 then win else side
  }

  function Snapped(win: Size, c: Size): Size {
    Size(Snap(c.w, win.w), Snap(c.h, win.h))
  }

  /** The size the surface is shown at. */
  function Fit(scale: Scale, win: Size, buf0: Size): Size {
    var buf := BufferSize(win, buf0);
    var d :=
      if scale == OneToOne || win.w <= 0 || win.h <= 0 then buf
      else if scale == Stretch then win
      else Snapped(win, Candidate(win, buf));
    if d.w <= 0 || d.h <= 0 then buf else d
  }

  class Viewport {
    var scale: Scale
    var win: Size
    var fit: Size  // fit_w, fit_h

    method Apply(bw: int, bh: int) returns (outW: int, outH: int)
      modifies this`fit
      ensures fit == Fit(scale, win, Size(bw, bh)) == Size(outW, outH)
    {
      var buf := Size(bw, bh);
      if bw <= 0 || bh <= 0 {
        buf := Size(if win.w > 0 then win.w else 1, if win.h > 0 then win.h else 1);
      }
      var dw, dh := buf.w, buf.h;
      if scale == OneToOne || win.w <= 0 || win.h <= 0 {
      } else if scale == Stretch {
        dw, dh := win.w, win.h;
      } else {
        var byH := win.h * buf.w / buf.h;
        if byH <= win.w {
          dw, dh := byH, win.h;
        } else {
          dw, dh := win.w, win.w * buf.h / buf.w;
        }
        if dw > win.w - 2 && dw < win.w + 2 {
          dw := win.w;
        }
        if dh > win.h - 2 && dh < win.h + 2 {
          dh := win.h;
        }
      }
      if dw <= 0 || dh <= 0 {
        dw, dh := buf.w, buf.h;
      }
      fit := Size(dw, dh);
      outW, outH := dw, dh;
    }
  }

  // ---- the aspect fit of a real buffer in a real window ---------------------------

  /** Neither candidate side rounds down to nothing. */
  predicate Shows(win: Size, buf: Size) {
    (buf.h <= win.h * buf.w || win.w == 1) && (buf.w <= win.w * buf.h || win.h == 1)
  }

  predicate Inside(d: Size, win: Size) {
    d.w <= win.w && d.h <= win.h
  }

  function Distance(x: int, y: int): nat {
    if x < y then y - x else x - y
  }

  /** One side fills the window; the other is within a pixel of keeping the buffer's ratio exactly. */
  predicate KeepsAspect(d: Size, win: Size, buf: Size) {
    || (d.h == win.h && Distance(d.w * buf.h, win.h * buf.w) <= buf.h)
    || (d.w == win.w && Distance(d.h * buf.w, win.w * buf.h) <= buf.w)
  }

  lemma Floor(n: nat, m: nat, q: int)
    requires m > 0
    ensures n / m * m <= n < n / m * m + m
    ensures n / m <= q <==> n < q * m + m
    ensures q <= n / m <==> q * m <= n
  {
    var f := n / m;
    if f <= q {
      assert f * m <= q * m;
    } else {
      assert (q + 1) * m <= f * m;
    }
    if q <= f {
      assert q * m <= f * m;
    } else {
      assert (f + 1) * m <= q * m;
    }
  }

  /** By height: the width is what is left to round. */
  lemma FitByHeight(win: Size, buf: Size)
    requires Positive(win) && Positive(buf) && win.h * buf.w < win.w * buf.h + buf.h
    ensures Candidate(win, buf) == Size(win.h * buf.w / buf.h, win.h)
    ensures var d := Snapped(win, Candidate(win, buf));
            && d.h == win.h && 0 <= d.w <= win.w
            && Distance(d.w * buf.h, win.h * buf.w) <= buf.h
            && (d.w == win.w <==> win.w * buf.h - buf.h <= win.h * buf.w)
            && (d.w == 0 <==> win.h * buf.w < buf.h && win.w != 1)
  {
    var b := win.h * buf.w;
    Floor(b, buf.h, win.w);
    Floor(b, buf.h, win.w - 1);
    Floor(b, buf.h, 0);
    assert (win.w - 1) * buf.h == win.w * buf.h - buf.h;
  }

  /** By width: the height is. */
  lemma FitByWidth(win: Size, buf: Size)
    requires Positive(win) && Positive(buf) && win.h * buf.w >= win.w * buf.h + buf.h
    ensures Candidate(win, buf) == Size(win.w, win.w * buf.h / buf.w)
    ensures var d := Snapped(win, Candidate(win, buf));
            && d.w == win.w && 0 <= d.h <= win.h
            && Distance(d.h * buf.w, win.w * buf.h) <= buf.w
            && (d.h == win.h <==> win.h * buf.w - buf.w <= win.w * buf.h)
            && (d.h == 0 <==> win.w * buf.h < buf.w && win.h != 1)
  {
    var a := win.w * buf.h;
    Floor(win.h * buf.w, buf.h, win.w);
    Floor(a, buf.w, win.h);
    Floor(a, buf.w, win.h - 1);
    Floor(a, buf.w, 0);
    assert (win.h - 1) * buf.w == win.h * buf.w - buf.w;
  }

  /** When the height is fitted, the other side cannot vanish unless the window is one row high. */
  lemma ShowsByHeight(win: Size, buf: Size)
    requires Positive(win) && Positive(buf) && win.h * buf.w < win.w * buf.h + buf.h
    ensures buf.w <= win.w * buf.h || win.h == 1
  {
    if win.h >= 2 {
      assert 2 * buf.w <= win.h * buf.w;
      assert buf.h <= win.w * buf.h;
    }
  }

  /** A frame taller or wider than any fit is shown at its own size, which the window does not hold. */
  lemma OutsideOtherwise(win: Size, buf: Size)
    requires Positive(win) && Positive(buf) && !Shows(win, buf)
    ensures !Inside(buf, win)
  {}

  /** The aspect fit is inside the window, fills one side and keeps the ratio, exactly when it shows at all. */
  lemma AspectFitsIff(win: Size, buf: Size)
    requires Positive(win) && Positive(buf)
    ensures Inside(Fit(Aspect, win, buf), win) <==> Shows(win, buf)
    ensures Shows(win, buf) ==> KeepsAspect(Fit(Aspect, win, buf), win, buf)
  {
    if win.h * buf.w < win.w * buf.h + buf.h {
      FitByHeight(win, buf);
      ShowsByHeight(win, buf);
    } else {
      FitByWidth(win, buf);
      assert 0 <= win.w * buf.h;
    }
    if !Shows(win, buf) {
      OutsideOtherwise(win, buf);
    }
  }

  /**
   * When there are no bars at all.  An exact ratio is enough, but not needed: the snap covers the
   * window whenever the fitted side is less than one pixel short of it, or one over.
   */
  lemma CoversIff(win: Size, buf: Size)
    requires Positive(win) && Positive(buf) && Shows(win, buf)
    ensures Fit(Aspect, win, buf) == win
            <==> var a, b := win.w * buf.h, win.h * buf.w; a - buf.h <= b && (b < a + buf.h || b <= a + buf.w)
    ensures win.w * buf.h == win.h * buf.w ==> Fit(Aspect, win, buf) == win
  {
    if win.h * buf.w < win.w * buf.h + buf.h {
      FitByHeight(win, buf);
    } else {
      FitByWidth(win, buf);
    }
  }

  /** A window covered by a frame of another ratio. */
  lemma CoveredWithoutExactRatio()
    ensures var win, buf := Size(100, 100), Size(99, 100);
            Fit(Aspect, win, buf) == win && win.w * buf.h != win.h * buf.w
  {}
}
