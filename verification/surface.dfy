/** The drawing surface (ReportLab's `canvas.Canvas`) reduced to what the
    flashcard program can observe of it: the sequence of drawing calls it has
    received, and the font metrics it answers `stringWidth` with. Colours,
    fonts and sizes set between the calls are cosmetic and not recorded. */
module Surface {

  /** One call the program made on the canvas. */
  datatype Event =
    | Border(x: real, y: real, width: real, height: real)  // c.rect(x, y, w, h)
    | Text(x: real, y: real, text: string)                  // c.drawCentredString(x, y, text)
    | PageBreak                                             // c.showPage()

  /** `canvas.stringWidth(text, fontName, fontSize)`: the width the font
      metrics give a string. Nothing is assumed about it. */
  type StringWidth = (string, string, int) -> real

  class Canvas {
    /** Every call received so far, oldest first. */
    var events: seq<Event>
    /** The metrics of the registered fonts; fixed for the canvas's life. */
    const stringWidth: StringWidth

    constructor (stringWidth: StringWidth)
      ensures events == [] && this.stringWidth == stringWidth
    {
      events := [];
      this.stringWidth := stringWidth;
    }

    method Rect(x: real, y: real, width: real, height: real)
      modifies this
      ensures events == old(events) + [Border(x, y, width, height)]
    {
      events := events + [Border(x, y, width, height)];
    }

    method DrawCentredString(x: real, y: real, text: string)
      modifies this
      ensures events == old(events) + [Text(x, y, text)]
    {
      events := events + [Text(x, y, text)];
    }

    method ShowPage()
      modifies this
      ensures events == old(events) + [PageBreak]
    {
      events := events + [PageBreak];
    }
  }

  /** How many times `showPage` occurs in a sequence of calls. */
  function PageBreaks(es: seq<Event>): nat {
    if es == [] then 0
    else PageBreaks(es[..|es| - 1]) + (if es[|es| - 1] == PageBreak then 1 else 0)
  }

  lemma {:induction false} PageBreaksAppend(a: seq<Event>, b: seq<Event>)
    ensures PageBreaks(a + b) == PageBreaks(a) + PageBreaks(b)
    decreases |b|
  {
    if b == [] {
      assert a + b == a;
    } else {
      var b' := b[..|b| - 1];
      assert (a + b)[..|a + b| - 1] == a + b';
      PageBreaksAppend(a, b');
    }
  }
}
