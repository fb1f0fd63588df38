// The text console: a page that only ever grows, and the writer that keeps the
// last 25 rows of it in video memory by sliding the screen up.

/** The unbounded page. */
module ConsolePage {

  newtype Cell = x: int | 0 <= x < 0x1_0000

  const COLUMNS := 80
  const ROWS := 25
  const SCREEN := 2000

  /** Whole rows of cells and the place where the next character goes. */
  datatype Page = Page(cells: seq<Cell>, pos: nat)

  predicate Laid(page: Page) {
    && |page.cells| % COLUMNS == 0
    && SCREEN <= |page.cells|
    && page.pos < |page.cells|
    && |page.cells| - COLUMNS * ROWS <= page.pos
    && (SCREEN < |page.cells| ==> |page.cells| - COLUMNS <= page.pos)
  }

  /** The low byte of a cell is its character, the high byte its attribute. */
  function Character(cell: Cell): (c: char) {
    (cell % 0x100) as char
  }

  function Attribute(cell: Cell): int {
    (cell / 0x100) as int
  }

  /** The masked cell or'ed with the character.  `char` is signed on i386: a byte from 0x80 on is extended
      with ones, which overwrite the attribute. */
  function Inscribe(cell: Cell, c: char): (r: Cell)
    requires c < '\U{100}'
    ensures Character(r) == c
    ensures Attribute(r) == Attribute(cell) <==> c < '\U{80}' || Attribute(cell) == 0xFF
  {
    if c < '\U{80}' then cell - cell % 0x100 + c as Cell else 0xFF00 + c as Cell
  }

  /** A row with the same attributes and nothing written on it. */
  function Wiped(row: seq<Cell>): (r: seq<Cell>)
    ensures |r| == |row|
  {
    seq(|row|, k requires 0 <= k < |row| => Inscribe(row[k], ' '))
  }

  function LastRow(cells: seq<Cell>): seq<Cell>
    requires |cells| >= COLUMNS
  {
    cells[|cells| - COLUMNS..]
  }

  /** A new row below, when the next place would fall off the page. */
  function Grow(cells: seq<Cell>, pos: nat): (page: Page)
    requires |cells| >= COLUMNS
  {
    if pos < |cells| then Page(cells, pos) else Page(cells + Wiped(LastRow(cells)), pos)
  }

  function NextRow(pos: nat): nat {
    (pos / COLUMNS + 1) * COLUMNS
  }

  function Write(page: Page, c: char): Page
    requires Laid(page) && c < '\U{100}'
  {
    if c == '\n' then Grow(page.cells, NextRow(page.pos))
    else Grow(page.cells[page.pos := Inscribe(page.cells[page.pos], c)], page.pos + 1)
  }

  /** Texts of bytes. */
  predicate Bytes(text: string) {
    forall i :: 0 <= i < |text| ==> text[i] < '\U{100}'
  }

  predicate Ascii(text: string) {
    forall i :: 0 <= i < |text| ==> text[i] < '\U{80}'
  }

  lemma WriteKeepsLaid(page: Page, c: char)
    requires Laid(page) && c < '\U{100}'
    ensures Laid(Write(page, c))
    ensures Write(page, c).pos == if c == '\n' then NextRow(page.pos) else page.pos + 1
  {
  }

  /** The page after a text. */
  function WriteAll(page: Page, text: string): (r: Page)
    requires Laid(page) && Bytes(text)
    ensures Laid(r)
    decreases |text|
  {
    if text == "" then page
    else
      WriteKeepsLaid(WriteAll(page, text[..|text| - 1]), text[|text| - 1]);
      Write(WriteAll(page, text[..|text| - 1]), text[|text| - 1])
  }

  /** What a 25-row window onto the end of the page shows. */
  function Window(page: Page): seq<Cell>
    requires Laid(page)
  {
    page.cells[|page.cells| - SCREEN..]
  }

  // ----- what the page means ------------------------------------------------

  /** The place a text reaches, by the wrapping rule alone. */
  function Reach(pos: nat, text: string): nat
    decreases |text|
  {
    if text == "" then pos
    else
      var before := Reach(pos, text[..|text| - 1]);
      if text[|text| - 1] == '\n' then NextRow(before) else before + 1
  }

  /**
   * The wrapping rule in rows and columns: a newline leads to column 0 of the following row, any other character to
   * the next column, or from the last one to column 0 of the following row.
   */
  lemma ReachRule(pos: nat, text: string, c: char)
    ensures Reach(pos, "") == pos
    ensures var before, after := Reach(pos, text), Reach(pos, text + [c]);
            if c == '\n' || before % 80 == 79 then after % 80 == 0 && after / 80 == before / 80 + 1
            else after % 80 == before % 80 + 1 && after / 80 == before / 80
  {
    assert (text + [c])[..|text|] == text;
  }

  lemma {:induction false} ReachGrows(pos: nat, text: string, k: nat)
    requires k <= |text|
    ensures Reach(pos, text[..k]) <= Reach(pos, text)
    ensures k < |text| ==> Reach(pos, text[..k]) < Reach(pos, text)
    decreases |text|
  {
    if k == |text| {
      assert text[..k] == text;
    } else {
      var front := text[..|text| - 1];
      assert front[..k] == text[..k];
      ReachGrows(pos, front, k);
    }
  }

  lemma {:induction false} PageReaches(page: Page, text: string)
    requires Laid(page) && Bytes(text)
    ensures WriteAll(page, text).pos == Reach(page.pos, text)
    ensures |page.cells| <= |WriteAll(page, text).cells|
    decreases |text|
  {
    if text != "" {
      var front := text[..|text| - 1];
      PageReaches(page, front);
      WriteKeepsLaid(WriteAll(page, front), text[|text| - 1]);
    }
  }

  /** Texts printed one after the other make the page of their concatenation. */
  lemma {:induction false} WritingComposes(page: Page, first: string, second: string)
    requires Laid(page) && Bytes(first) && Bytes(second)
    ensures Bytes(first + second)
    ensures WriteAll(WriteAll(page, first), second) == WriteAll(page, first + second)
    decreases |second|
  {
    if second == "" {
      assert first + second == first;
    } else {
      var front := second[..|second| - 1];
      var both := first + second;
      assert both[..|both| - 1] == first + front;
      assert both[|both| - 1] == second[|second| - 1];
      hide Write, Laid;
      WritingComposes(page, first, front);
    }
  }

  /** Nothing before the place reached is ever touched again. */
  lemma {:induction false} HistoryStays(page: Page, text: string, p: nat)
    requires Laid(page) && Bytes(text)
    requires p < page.pos
    ensures p < |WriteAll(page, text).cells|
    ensures WriteAll(page, text).cells[p] == page.cells[p]
    decreases |text|
  {
    if text != "" {
      var front := text[..|text| - 1];
      HistoryStays(page, front, p);
      PageReaches(page, front);
      ReachGrows(page.pos, front, 0);
      assert front[..0] == "";
    }
  }

  lemma LastStands(page: Page, text: string)
    requires Laid(page) && Bytes(text) && text != "" && text[|text| - 1] != '\n'
    ensures var at := Reach(page.pos, text[..|text| - 1]);
            at < |WriteAll(page, text).cells| && at < WriteAll(page, text).pos
            && Character(WriteAll(page, text).cells[at]) == text[|text| - 1]
  {
    PageReaches(page, text[..|text| - 1]);
  }

  /** Every character of a text stands where the wrapping rule puts it. */
  lemma TextStands(page: Page, text: string, k: nat)
    requires Laid(page) && Bytes(text)
    requires k < |text| && text[k] != '\n'
    ensures Reach(page.pos, text[..k]) < |WriteAll(page, text).cells|
    ensures Character(WriteAll(page, text).cells[Reach(page.pos, text[..k])]) == text[k]
  {
    hide Laid, WriteAll, Reach, Character;
    var upTo, rest := text[..k + 1], text[k + 1..];
    assert upTo[..|upTo| - 1] == text[..k];
    LastStands(page, upTo);
    assert text == upTo + rest;
    WritingComposes(page, upTo, rest);
    HistoryStays(WriteAll(page, upTo), rest, Reach(page.pos, text[..k]));
  }

  /** A place no character of the text goes to keeps its cell, or is blank when
      it was not on the page before. */
  lemma {:induction false} RestIsUntouched(page: Page, text: string, p: nat)
    requires Laid(page) && Bytes(text)
    requires p < |WriteAll(page, text).cells|
    requires forall k :: 0 <= k < |text| && text[k] != '\n' ==> Reach(page.pos, text[..k]) != p
    ensures p < |page.cells| ==> WriteAll(page, text).cells[p] == page.cells[p]
    ensures |page.cells| <= p ==> Character(WriteAll(page, text).cells[p]) == ' '
    decreases |text|
  {
    if text != "" {
      var front := text[..|text| - 1];
      var before := WriteAll(page, front);
      PageReaches(page, front);
      assert text[|text| - 1] != '\n' ==> Reach(page.pos, text[..|text| - 1]) != p;
      if p < |before.cells| {
        forall k | 0 <= k < |front| && front[k] != '\n' ensures Reach(page.pos, front[..k]) != p {
          assert front[..k] == text[..k];
        }
        RestIsUntouched(page, front, p);
      }
    }
  }

  /** Row of the first screen whose attributes a row of the page shows: its own,
      or the bottom row's for every row added later. */
  function Origin(p: nat): nat {
    if p < SCREEN then p else SCREEN - COLUMNS + p % COLUMNS
  }

  predicate Coloured(page: Page, screen: seq<Cell>, p: nat)
    requires |screen| == SCREEN && p < |page.cells|
  {
    Attribute(page.cells[p]) == Attribute(screen[Origin(p)])
  }

  ghost predicate AllColoured(page: Page, screen: seq<Cell>)
    requires |screen| == SCREEN
  {
    forall p :: 0 <= p < |page.cells| ==> Coloured(page, screen, p)
  }

  /** Character `k` of a text leaves the attribute of its place alone. */
  predicate Harmless(screen: seq<Cell>, pos: nat, text: string, k: nat)
    requires |screen| == SCREEN && k < |text|
  {
    OriginAbove(Reach(pos, text[..k]));
    text[k] < '\U{80}' || Attribute(screen[Origin(Reach(pos, text[..k]))]) == 0xFF
  }

  ghost predicate AllHarmless(screen: seq<Cell>, pos: nat, text: string)
    requires |screen| == SCREEN
  {
    forall k :: 0 <= k < |text| ==> Harmless(screen, pos, text, k)
  }

  /** Spoilt behind the cursor, where nothing is written again. */
  ghost predicate Spoilt(page: Page, screen: seq<Cell>)
    requires |screen| == SCREEN
  {
    exists p :: 0 <= p < |page.cells| && p < page.pos && !Coloured(page, screen, p)
  }

  lemma HarmlessPrefix(screen: seq<Cell>, pos: nat, text: string)
    requires |screen| == SCREEN && text != ""
    ensures var last := |text| - 1;
            AllHarmless(screen, pos, text)
            <==> AllHarmless(screen, pos, text[..last]) && Harmless(screen, pos, text, last)
  {
    var front := text[..|text| - 1];
    assert forall k :: 0 <= k < |front| ==> front[..k] == text[..k];
    assert forall k :: 0 <= k < |front| ==> (Harmless(screen, pos, front, k) <==> Harmless(screen, pos, text, k));
  }

  lemma SpoiltStays(page: Page, screen: seq<Cell>, c: char)
    requires Laid(page) && c < '\U{100}' && |screen| == SCREEN && Spoilt(page, screen)
    ensures Spoilt(Write(page, c), screen)
  {
    WriteKeepsLaid(page, c);
    var p :| 0 <= p < |page.cells| && p < page.pos && !Coloured(page, screen, p);
    assert Write(page, c).cells[p] == page.cells[p];
    assert !Coloured(Write(page, c), screen, p);
  }

  lemma Spoils(page: Page, screen: seq<Cell>, c: char)
    requires Laid(page) && '\U{80}' <= c < '\U{100}' && |screen| == SCREEN
    requires Origin(page.pos) < SCREEN && Attribute(screen[Origin(page.pos)]) != 0xFF
    ensures Spoilt(Write(page, c), screen)
  {
    WriteKeepsLaid(page, c);
    var next := Write(page, c);
    assert next.cells[page.pos] == Inscribe(page.cells[page.pos], c);
    assert !Coloured(next, screen, page.pos);
  }

  lemma {:induction false} AttributesFollow(page: Page, text: string)
    requires Laid(page) && Bytes(text) && |page.cells| == SCREEN
    ensures var r := WriteAll(page, text);
            if AllHarmless(page.cells, page.pos, text) then AllColoured(r, page.cells) else Spoilt(r, page.cells)
    decreases |text|
  {
    if text != "" {
      var front, c := text[..|text| - 1], text[|text| - 1];
      var before := WriteAll(page, front);
      AttributesFollow(page, front);
      HarmlessPrefix(page.cells, page.pos, text);
      PageReaches(page, front);
      OriginAbove(before.pos);
      hide Reach, Spoilt, Write, Origin, AllHarmless, Laid;
      if AllHarmless(page.cells, page.pos, front) {
        if Harmless(page.cells, page.pos, text, |text| - 1) {
          assert Coloured(before, page.cells, before.pos);
          ColoursStay(before, page.cells, c);
        } else {
          Spoils(before, page.cells, c);
        }
      } else {
        SpoiltStays(before, page.cells, c);
      }
    }
  }

  /** A text leaves every attribute as it was on the first screen, in the bottom row for rows added later, if
      and only if its bytes from 0x80 on go only to places whose attribute is 0xFF already. */
  lemma AttributesStayExactly(page: Page, text: string)
    requires Laid(page) && Bytes(text) && |page.cells| == SCREEN
    ensures AllColoured(WriteAll(page, text), page.cells) <==> AllHarmless(page.cells, page.pos, text)
    ensures Ascii(text) ==> AllColoured(WriteAll(page, text), page.cells)
  {
    AttributesFollow(page, text);
  }

  lemma ColoursStay(page: Page, screen: seq<Cell>, c: char)
    requires Laid(page) && c < '\U{100}' && |screen| == SCREEN && AllColoured(page, screen)
    requires c < '\U{80}' || Attribute(page.cells[page.pos]) == 0xFF
    ensures AllColoured(Write(page, c), screen)
  {
    var next := Write(page, c);
    forall p | 0 <= p < |next.cells| ensures Coloured(next, screen, p) {
      CellKeepsColour(page, c, p);
      OriginAbove(p);
      hide Write;
      hide Origin;
      assert Coloured(page, screen, if p < |page.cells| then p else p - COLUMNS);
    }
  }

  lemma OriginAbove(p: nat)
    ensures p >= SCREEN ==> Origin(p) == Origin(p - COLUMNS)
    ensures Origin(p) < SCREEN
  {
  }

  lemma CellKeepsColour(page: Page, c: char, p: nat)
    requires Laid(page) && c < '\U{100}'
    requires c < '\U{80}' || Attribute(page.cells[page.pos]) == 0xFF
    requires p < |Write(page, c).cells|
    ensures var from := if p < |page.cells| then p else p - COLUMNS;
            && 0 <= from < |page.cells|
            && Attribute(Write(page, c).cells[p]) == Attribute(page.cells[from])
  {
  }
}

/** The writer. */
module Console {
  import opened ConsolePage
  import Decimal

  import opened Words

  /** Length of the C string that starts a buffer. */
  function StringLength(str: string): (n: nat)
    requires '\0' in str
    ensures n < |str| && str[n] == '\0' && '\0' !in str[..n]
  {
    if str[0] == '\0' then 0 else 1 + StringLength(str[1..])
  }

  function CString(str: string): string
    requires '\0' in str
  {
    str[..StringLength(str)]
  }

  lemma {:induction false} EndsAt(str: string, n: nat)
    requires n < |str| && str[n] == '\0' && '\0' !in str[..n]
    ensures StringLength(str) == n
    decreases n
  {
    if n > 0 {
      assert str[0] == str[..n][0];
      assert str[1..][..n - 1] == str[..n][1..];
      EndsAt(str[1..], n - 1);
    }
  }

  // ----- the screen against the page ---------------------------------------

  /** The screen shows the end of the page and the cursor is where the page is written next. */
  ghost predicate Shows(screen: seq<Cell>, place: int, page: Page) {
    && |screen| == SCREEN
    && Laid(page)
    && screen == Window(page)
    && page.pos == |page.cells| - SCREEN + place
  }

  /** One row up, with a wiped bottom row. */
  function Slid(screen: seq<Cell>): (r: seq<Cell>)
    requires |screen| == SCREEN
    ensures |r| == SCREEN
  {
    screen[COLUMNS..] + Wiped(screen[SCREEN - COLUMNS..])
  }

  /** Growing the page by a row is sliding the screen. */
  lemma GrowingSlides(cells: seq<Cell>, screen: seq<Cell>)
    requires |cells| >= SCREEN && screen == cells[|cells| - SCREEN..]
    ensures var grown := Grow(cells, |cells|).cells;
            |grown| == |cells| + COLUMNS && grown[|grown| - SCREEN..] == Slid(screen)
  {
    assert LastRow(cells) == screen[SCREEN - COLUMNS..];
  }

  /** A character typed on the screen is typed on the page. */
  lemma TypedWindow(screen: seq<Cell>, place: nat, page: Page, cell: Cell)
    requires Shows(screen, place, page) && place < SCREEN
    ensures var cells := page.cells[page.pos := cell];
            cells[|cells| - SCREEN..] == screen[place := cell]
    ensures screen[place] == page.cells[page.pos]
  {
  }

  lemma TypedShows(screen: seq<Cell>, place: nat, page: Page, c: char)
    requires Shows(screen, place, page) && place < SCREEN
    requires c < '\U{100}' && c != '\n'
    ensures var typed := screen[place := Inscribe(screen[place], c)];
            if place + 1 < SCREEN then Shows(typed, place + 1, Write(page, c))
            else Shows(Slid(typed), SCREEN - COLUMNS, Write(page, c))
  {
    WriteKeepsLaid(page, c);
    hide Inscribe;
    hide Wiped;
    hide Slid;
    hide LastRow;
    var cell := Inscribe(screen[place], c);
    TypedWindow(screen, place, page, cell);
    if place + 1 == SCREEN {
      GrowingSlides(page.cells[page.pos := cell], screen[place := cell]);
    }
  }

  lemma RowsAdd(above: nat, place: nat)
    requires above % COLUMNS == 0 && place < SCREEN
    ensures NextRow(above + place) == above + NextRow(place)
    ensures place < NextRow(place) <= SCREEN
  {
  }

  lemma AboveIsRows(page: Page)
    requires Laid(page)
    ensures |page.cells| >= SCREEN && (|page.cells| - SCREEN) % COLUMNS == 0
  {
  }

  lemma NewlineWindow(screen: seq<Cell>, place: nat, page: Page)
    requires Shows(screen, place, page) && place < SCREEN
    ensures if NextRow(place) < SCREEN then Shows(screen, NextRow(place), Write(page, '\n'))
            else Shows(Slid(screen), SCREEN - COLUMNS, Write(page, '\n'))
  {
    hide Wiped;
    hide Slid;
    hide LastRow;
    hide Laid;
    hide NextRow;
    WriteKeepsLaid(page, '\n');
    AboveIsRows(page);
    RowsAdd(|page.cells| - SCREEN, place);
    if NextRow(place) == SCREEN {
      GrowingSlides(page.cells, screen);
    }
  }

  /** A newline on row `y` of the screen: the cursor to column 0 of the next row, or the screen up by one row. */
  lemma NewlineShows(screen: seq<Cell>, x: nat, y: nat, page: Page)
    requires x < 80 && y < 25 && Shows(screen, 80 * y + x, page)
    ensures if y < 24 then Shows(screen, 80 * (y + 1), Write(page, '\n'))
            else Shows(Slid(screen), 80 * 24, Write(page, '\n'))
    ensures Write(page, '\n').pos % 80 == 0 && Write(page, '\n').pos / 80 == page.pos / 80 + 1
  {
    hide Shows, Slid;
    NewlineWindow(screen, 80 * y + x, page);
    RowsAdd(0, 80 * y + x);
    PlaceInRow(x, y);
    ShownPage(screen, 80 * y + x, page);
    WriteKeepsLaid(page, '\n');
  }

  lemma PlaceInRow(x: nat, y: nat)
    requires x < 80
    ensures NextRow(80 * y + x) == 80 * (y + 1)
  {
    assert (80 * y + x) / 80 == y;
  }

  lemma ShownPage(screen: seq<Cell>, place: int, page: Page)
    requires Shows(screen, place, page)
    ensures Laid(page)
  {
  }

  class Console {
    const video: array<Cell>
    var x: uint8
    var y: uint8
    ghost var page: Page

    ghost predicate Valid()
      reads this, video
    {
      && video.Length == SCREEN
      && x < 80 && y < 25
      && Laid(page)
      && Shows(video[..], Place(), page)
    }

    function Place(): int
      reads this
    {
      80 * y as int + x as int
    }

    /** The first call finds whatever the screen holds. */
    constructor (video: array<Cell>)
      requires video.Length == SCREEN
      ensures this.video == video && Valid()
      ensures page == Page(video[..], 0)
    {
      this.video := video;
      x, y := 0, 0;
      page := Page(video[..], 0);
    }

    method SlideUp()
      requires video.Length == SCREEN
      modifies video
      ensures video[..] == Slid(old(video[..]))
    {
      for j := 0 to 24
        invariant forall p :: 0 <= p < 80 * j ==> video[p] == old(video[p + 80])
        invariant forall p :: 80 * j <= p < SCREEN ==> video[p] == old(video[p])
      {
        for k := 0 to 80
          invariant forall p :: 0 <= p < 80 * j + k ==> video[p] == old(video[p + 80])
          invariant forall p :: 80 * j + k <= p < SCREEN ==> video[p] == old(video[p])
        {
          video[80 * j + k] := video[80 * (j + 1) + k];
        }
      }
      for k := 0 to 80
        invariant forall p :: 0 <= p < 1920 ==> video[p] == old(video[p + 80])
        invariant forall p :: 1920 <= p < 1920 + k ==> video[p] == Inscribe(old(video[p]), ' ')
        invariant forall p :: 1920 + k <= p < SCREEN ==> video[p] == old(video[p])
      {
        video[80 * 24 + k] := Inscribe(video[80 * 24 + k], ' ');
      }
    }

    /** The switch and the wrap at the right edge: what is written, and where the cursor goes. */
    method Advance(c: char)
      requires video.Length == SCREEN && x < 80 && y < 25 && c < '\U{100}'
      modifies this`x, this`y, video
      ensures x < 80 && y <= 25
      ensures if c == '\n' || old(x) == 79 then x == 0 && y == old(y) + 1 else x == old(x) + 1 && y == old(y)
      ensures Place() == if c == '\n' then NextRow(old(Place())) else old(Place()) + 1
      ensures video[..] == if c == '\n' then old(video[..])
                           else old(video[..])[old(Place()) := Inscribe(old(video[Place()]), c)]
    {
      hide Inscribe;
      if c == '\n' {
        x := 0;
        y := y + 1;
      } else {
        video[Place()] := Inscribe(video[Place()], c);
        x := x + 1;
      }
      if x >= 80 {
        x := 0;
        y := y + 1;
      }
    }

    /** One turn of the loop: the screen moves exactly as the page does. */
    method Put(c: char)
      requires Valid() && c < '\U{100}'
      modifies this`x, this`y, this`page, video
      ensures Valid() && page == Write(old(page), c)
      ensures if c == '\n' || old(x) == 79 then x == 0 && y == (if old(y) == 24 then 24 else old(y) + 1)
              else x == old(x) + 1 && y == old(y)
    {
      hide Shows;
      hide Write;
      hide Slid;
      hide Inscribe;
      hide Laid;
      WriteKeepsLaid(page, c);
      if c == '\n' {
        NewlineWindow(video[..], Place(), page);
      } else {
        TypedShows(video[..], Place(), page, c);
      }
      hide NextRow;
      page := Write(page, c);
      Advance(c);
      if y >= 25 {
        SlideUp();
        x := 0;
        y := 24;
      }
    }

    method Printf(str: string)
      requires Valid()
      requires '\0' in str && Bytes(CString(str))
      modifies this`x, this`y, this`page, video
      ensures Valid() && page == WriteAll(old(page), CString(str))
    {
      hide Shows;
      hide StringLength;
      ghost var text := CString(str);
      forall k | 0 <= k < |text| ensures str[k] != '\0' {
        assert str[k] == text[k];
      }
      var i := 0;
      while str[i] != '\0'
        invariant i <= StringLength(str)
        invariant Valid() && page == WriteAll(old(page), text[..i])
        decreases StringLength(str) - i
      {
        assert text[..i + 1][..i] == text[..i];
        Put(str[i]);
        i := i + 1;
      }
      assert text[..i] == text;
    }

    /** A number, printed through the same writer. */
    method PrintfInt(num: int)
      requires Valid() && Decimal.IsInt32(num)
      modifies this`x, this`y, this`page, video
      ensures Bytes(Decimal.Render(num))
      ensures Valid() && page == WriteAll(old(page), Decimal.Render(num))
    {
      var str := Decimal.Format(num);
      var n := |Decimal.Render(num)|;
      EndsAt(str[..], n);
      Printf(str[..]);
    }
  }
}
