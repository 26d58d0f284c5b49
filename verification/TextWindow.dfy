/** Paging a stored text by characters. */
module TextWindow {
  import opened Prelude

  /** 2^30: Postgres stores no longer text, and its positions are int4. */
  const MAX_TEXT_CHARS: nat := 0x4000_0000

  datatype Window = Window(offset: int, limit: Option<int>)

  /** `text_window_error` is None. */
  predicate IsWindow(w: Window) {
    w.offset >= 0 && (w.limit.Some? ==> w.limit.value >= 1)
  }

  /** A position Postgres takes as an int4, whatever was asked for. */
  function SqlFrom(w: Window): (r: int)
    requires IsWindow(w)
    ensures 1 <= r < 0x8000_0000
  {
    Min(w.offset, MAX_TEXT_CHARS) + 1
  }

  function SqlFor(w: Window): (r: Option<int>)
    requires IsWindow(w)
    ensures r.Some? ==> 1 <= r.value < 0x8000_0000 && SqlFrom(w) + r.value <= 0x8000_0001
  {
    match w.limit
    case None => None
    case Some(n) => Some(Min(n, MAX_TEXT_CHARS))
  }

  /** substring(text from `start` for `count`): 1-based positions, those past the
      end of the text give nothing. */
  function Substring(text: string, start: int, count: Option<int>): string
    requires start >= 1 && (count.Some? ==> count.value >= 0)
  {
    var from := Min(start - 1, |text|);
    match count
    case None => text[from..]
    case Some(n) => text[from..Min(from + n, |text|)]
  }

  datatype Page = Page(text: string, offset: int, limit: Option<int>, total: int, next: Option<int>)

  /** The page constructor's own checks: it raises unless all of them hold. */
  predicate ChecksPass(p: Page) {
    var end := p.offset + |p.text|;
    && (p.limit.Some? ==> |p.text| <= p.limit.value)
    && p.next == (if end < p.total then Some(end) else None)
    && (p.next.Some? ==> p.next.value > p.offset)
  }

  function MakePage(w: Window, text: string, total: int): Page {
    var end := w.offset + |text|;
    Page(text, w.offset, w.limit, total, if end < total then Some(end) else None)
  }

  /** One request: the clamped SQL positions, and the page made of the answer. */
  function ReadPage(text: string, w: Window): Page
    requires IsWindow(w)
  {
    MakePage(w, Substring(text, SqlFrom(w), SqlFor(w)), |text|)
  }

  /** Clamping cannot change an answer: the page holds exactly the slice asked
      for, and its constructor never raises. */
  lemma PageIsSlice(text: string, w: Window)
    requires |text| <= MAX_TEXT_CHARS && IsWindow(w)
    ensures var from := Min(w.offset, |text|);
            var to := if w.limit.Some? then Min(w.offset + w.limit.value, |text|) else |text|;
            from <= to && ReadPage(text, w).text == text[from..to]
    ensures ChecksPass(ReadPage(text, w))
  {
  }

  /** A client looping on `next_offset`. */
  function Walk(text: string, offset: nat, limit: Option<int>): string
    requires |text| <= MAX_TEXT_CHARS && (limit.Some? ==> limit.value >= 1)
    decreases |text| - offset
  {
    var page := ReadPage(text, Window(offset, limit));
    if page.next.None? then page.text
    else
      PageIsSlice(text, Window(offset, limit));
      page.text + Walk(text, page.next.value, limit)
  }

  /** The loop ends and the pages put together are the text from `offset` on. */
  lemma {:induction false} WalkReadsTheText(text: string, offset: nat, limit: Option<int>)
    requires |text| <= MAX_TEXT_CHARS && (limit.Some? ==> limit.value >= 1)
    ensures Walk(text, offset, limit) == text[Min(offset, |text|)..]
    decreases |text| - offset
  {
    var w := Window(offset, limit);
    PageIsSlice(text, w);
    var page := ReadPage(text, w);
    if page.next.Some? {
      WalkReadsTheText(text, page.next.value, limit);
      assert text[offset..] == text[offset..page.next.value] + text[page.next.value..];
    }
  }
}
