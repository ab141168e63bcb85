/**
 * The content-breakdown parser of the course-modal data generator
 * (scripts/generate-course-modal-data.js): it finds the
 * "Category | Lessons | Free | Topics Covered" table in a course summary,
 * reads one category per data row, and looks up each category's emoji and
 * colour.
 */
module CourseModalData {
  import opened Wrappers
  import opened JsString
  import Store

  /** One entry of the generated category list. */
  datatype Category = Category(
    name: string, emoji: string, lessonCount: int, freeLessons: int, topics: string, color: string)

  /** The header row the table search starts from. */
  const Header := "| Category | Lessons | Free | Topics Covered |"
  const BlankLine := "\n\n"
  const Pin := "\U{1F4CC}"
  const Gray := "gray"

  /** `categoryEmojis`. */
  const CategoryEmojis: map<string, string> := map[
    "Shape" := "\U{1F4D0}", "Algebra" := "\U{1F522}", "Number" := "\U{1F522}",
    "Data" := "\U{1F4CA}", "Probability" := "\U{1F3B2}", "Exam Practice" := "\U{1F4DD}",
    "Mixed Practice" := "\U{1F504}", "Problem Solving" := "\U{1F4A1}",
    "Data Representation" := "\U{1F4BE}", "Computer Systems" := "\U{1F5A5}\U{FE0F}",
    "Algorithms" := "\U{1F504}", "Programming" := "\U{1F4BB}", "Databases" := "\U{1F5C4}\U{FE0F}",
    "Networks" := "\U{1F310}", "Cyber Security" := "\U{1F512}", "Software" := "\U{2699}\U{FE0F}",
    "Ethics and Law" := "\U{2696}\U{FE0F}", "Boolean Logic" := "\U{1F50C}",
    "Data Structures" := "\U{1F4DA}", "Emerging Technologies" := "\U{1F680}", "Revision" := "\U{1F4D6}"]

  /** `categoryColors`. */
  const CategoryColors: map<string, string> := map[
    "Shape" := "blue", "Algebra" := "purple", "Number" := "green", "Data" := "orange",
    "Probability" := "red", "Exam Practice" := "indigo", "Mixed Practice" := "cyan",
    "Problem Solving" := "pink", "Data Representation" := "blue", "Computer Systems" := "purple",
    "Algorithms" := "green", "Programming" := "cyan", "Databases" := "orange",
    "Networks" := "indigo", "Cyber Security" := "red", "Software" := "pink",
    "Ethics and Law" := "yellow", "Boolean Logic" := "lime", "Data Structures" := "teal",
    "Emerging Technologies" := "violet", "Revision" := "gray"]

  /** `categoryEmojis[name] || '📌'`: a name outside the table gets the pin. */
  function EmojiFor(name: string): (e: string)
    ensures name in CategoryEmojis ==> e == CategoryEmojis[name]
    ensures e == Pin <==> name !in CategoryEmojis
  {
    if name in CategoryEmojis then CategoryEmojis[name] else Pin
  }

  /** `categoryColors[name] || 'gray'`: a name outside the table is grey, like "Revision". */
  function ColorFor(name: string): (c: string)
    ensures name in CategoryColors ==> c == CategoryColors[name]
    ensures c == Gray <==> name !in CategoryColors || name == "Revision"
  {
    if name in CategoryColors then CategoryColors[name] else Gray
  }

  /** Both tables name the same categories. */
  lemma TablesAgree()
    ensures CategoryEmojis.Keys == CategoryColors.Keys
  {
  }

  /**
   * `content.match(/\| Category \| Lessons \| Free \| Topics Covered \|[\s\S]*?\n\n/)`:
   * from the first header to the first blank line after it, both included.
   */
  function TableText(content: string): (t: Option<string>)
    ensures t.Some? ==> IsPrefix(Header, t.value) && |t.value| >= |Header| + 2
    ensures t.Some? ==> t.value[|t.value| - 2..] == BlankLine
    ensures t.Some? ==> exists k, j :: TableSpan(content, k, j) && t.value == content[k..j + 2]
    ensures t.None? ==> forall k, j ::
      (0 <= k <= |content| && k + |Header| <= j <= |content| && IsPrefix(Header, content[k..]))
      ==> !IsPrefix(BlankLine, content[j..])
  {
    var k := IndexOfFrom(content, Header, 0);
    if k == -1 then None
    else
      var j := IndexOfFrom(content, BlankLine, k + |Header|);
      if j == -1 then None
      else
        assert TableSpan(content, k, j);
        assert content[k..j + 2][..|Header|] == content[k..][..|Header|];
        assert content[k..j + 2][j + 2 - k - 2..] == content[j..][..2];
        Some(content[k..j + 2])
  }

  /** The match runs from the first header at `k` to the first blank line at `j` after it. */
  predicate TableSpan(content: string, k: int, j: int) {
    FirstAt(content, Header, 0, k) && FirstAt(content, BlankLine, k + |Header|, j)
  }

  /** `sub` occurs at `k`, and nowhere from `from` up to `k`: the first occurrence from `from`. */
  predicate FirstAt(s: string, sub: string, from: nat, k: int) {
    from <= k <= |s| && IsPrefix(sub, s[k..])
    && forall k' :: from <= k' < k ==> !IsPrefix(sub, s[k'..])
  }

  /** A line the row filter keeps: not blank and not the `---` separator. */
  predicate IsDataLine(line: string) {
    Trim(line) != "" && !Includes(line, "---")
  }

  /** `.filter(line => line.trim() && !line.includes('---'))`. */
  function DataLines(lines: seq<string>): (r: seq<string>)
    ensures |r| <= |lines|
    ensures forall i :: 0 <= i < |r| ==> IsDataLine(r[i])
  {
    if lines == [] then []
    else
      var rest := DataLines(lines[1..]);
      if IsDataLine(lines[0]) then [lines[0]] + rest else rest
  }

  /** A single line is kept exactly when it is a data line. */
  lemma DataLinesOfOne(line: string)
    ensures DataLines([line]) == if IsDataLine(line) then [line] else []
  {
    assert [line][1..] == [];
  }

  /** The filter keeps the lines' order: it distributes over concatenation. */
  lemma {:induction false} DataLinesAppend(a: seq<string>, b: seq<string>)
    ensures DataLines(a + b) == DataLines(a) + DataLines(b)
  {
    if a == [] {
      assert a + b == b;
    } else {
      assert (a + b)[0] == a[0];
      assert (a + b)[1..] == a[1..] + b;
      DataLinesAppend(a[1..], b);
    }
  }

  /** `.map(col => col.trim()).filter(col => col)`. */
  function NonEmptyTrimmed(pieces: seq<string>): (r: seq<string>)
    ensures |r| <= |pieces|
    ensures forall i :: 0 <= i < |r| ==> r[i] != "" && Trim(r[i]) == r[i]
  {
    if pieces == [] then []
    else
      var cell := Trim(pieces[0]);
      var rest := NonEmptyTrimmed(pieces[1..]);
      if cell != "" then
        TrimIdempotent(pieces[0]);
        var r := [cell] + rest;
        assert forall i :: 0 < i < |r| ==> r[i] == rest[i - 1];
        r
      else rest
  }

  /** `row.split('|')`, each piece trimmed, the empty ones dropped. */
  function Cells(row: string): (cells: seq<string>)
    ensures forall i :: 0 <= i < |cells| ==> cells[i] != "" && Trim(cells[i]) == cells[i]
  {
    NonEmptyTrimmed(Split(row, '|'))
  }

  /** `parseInt(cell) || 0`: NaN becomes 0. */
  function CountOf(cell: string): (n: int)
    ensures ParseInt(cell).Some? ==> n == ParseInt(cell).value
    ensures ParseInt(cell).None? ==> n == 0
  {
    match ParseInt(cell)
    case Some(v) => v
    case None => 0
  }

  predicate NoDoubleStar(s: string) {
    forall i :: 0 <= i < |s| - 1 ==> !(s[i] == '*' && s[i + 1] == '*')
  }

  /** Trimming cuts a piece out of the middle, so it cannot create a "**". */
  lemma TrimKeepsNoDoubleStar(s: string)
    requires NoDoubleStar(s)
    ensures NoDoubleStar(Trim(s))
  {
    var t := TrimStart(s);
    SliceKeepsNoDoubleStar(s, |s| - |t|, |s|);
    assert s[|s| - |t|..|s|] == t;
    var u := TrimEnd(t);
    SliceKeepsNoDoubleStar(t, 0, |u|);
    assert t[0..|u|] == u;
  }

  lemma SliceKeepsNoDoubleStar(s: string, lo: int, hi: int)
    requires NoDoubleStar(s) && 0 <= lo <= hi <= |s|
    ensures NoDoubleStar(s[lo..hi])
  {
    var p := s[lo..hi];
    forall i | 0 <= i < |p| - 1
      ensures !(p[i] == '*' && p[i + 1] == '*')
    {
      assert p[i] == s[lo + i] && p[i + 1] == s[lo + i + 1];
    }
  }

  /**
   * The category a table row describes, or `None` when the row is blank,
   * has fewer than four cells, an empty name or no positive lesson count.
   */
  function RowCategory(row: string): Option<Category> {
    if Trim(row) == "" then None
    else
      var columns := Cells(row);
      if |columns| < 4 then None
      else
        var name := Trim(RemoveDoubleStars(columns[0]));
        var lessonCount := CountOf(columns[1]);
        if name != "" && lessonCount > 0 then
          Some(Category(name, EmojiFor(name), lessonCount, CountOf(columns[2]), Trim(columns[3]), ColorFor(name)))
        else None
  }

  /**
   * What a row yields: nothing for a blank row or one with fewer than four
   * cells; otherwise a category whose name is the first cell without "**",
   * whose counts are the next two cells' leading integers (0 for none),
   * whose topics are the fourth cell, and whose emoji and colour are looked
   * up by name.
   */
  lemma RowCategoryShape(row: string)
    ensures (Trim(row) == "" || |Cells(row)| < 4) ==> RowCategory(row).None?
    ensures (Trim(row) != "" && |Cells(row)| >= 4 && Trim(RemoveDoubleStars(Cells(row)[0])) != ""
             && CountOf(Cells(row)[1]) > 0) ==> RowCategory(row).Some?
    ensures RowCategory(row).Some? ==> var c := RowCategory(row).value;
      && c.name != "" && NoDoubleStar(c.name) && c.lessonCount > 0
      && c.name == Trim(RemoveDoubleStars(Cells(row)[0]))
      && c.lessonCount == CountOf(Cells(row)[1]) && c.freeLessons == CountOf(Cells(row)[2])
      && c.topics == Cells(row)[3]
      && c.emoji == EmojiFor(c.name) && c.color == ColorFor(c.name)
  {
    if Trim(row) != "" && |Cells(row)| >= 4 {
      TrimKeepsNoDoubleStar(RemoveDoubleStars(Cells(row)[0]));
    }
  }

  /** The row loop's `push`: the categories that were produced, in order. */
  function Collect(found: seq<Option<Category>>): (r: seq<Category>)
    ensures |r| <= |found|
  {
    if found == [] then []
    else
      var rest := Collect(found[1..]);
      if found[0].Some? then [found[0].value] + rest else rest
  }

  /** Collecting distributes over concatenation, so the output keeps the rows' order. */
  lemma {:induction false} CollectAppend(a: seq<Option<Category>>, b: seq<Option<Category>>)
    ensures Collect(a + b) == Collect(a) + Collect(b)
  {
    if a == [] {
      assert a + b == b;
    } else {
      assert (a + b)[0] == a[0];
      assert (a + b)[1..] == a[1..] + b;
      CollectAppend(a[1..], b);
    }
  }

  /** One more row read: its category, if any, is pushed at the end. */
  lemma CollectStep(found: seq<Option<Category>>, n: nat, next: Option<Category>)
    requires n < |found| && found[n] == next
    ensures Collect(found[..n + 1]) == Collect(found[..n]) + (if next.Some? then [next.value] else [])
  {
    assert found[..n + 1] == found[..n] + [next];
    CollectAppend(found[..n], [next]);
    assert Collect([next]) == if next.Some? then [next.value] else [];
  }

  /** A category is collected exactly when some row produced it. */
  lemma {:induction false} CollectedWereFound(found: seq<Option<Category>>)
    ensures forall c :: c in Collect(found) <==> Some(c) in found
  {
    if found != [] {
      CollectedWereFound(found[1..]);
      assert found == [found[0]] + found[1..];
      assert forall x :: x in found <==> x == found[0] || x in found[1..];
    }
  }

  /** Each row read on its own. */
  function RowCategories(rows: seq<string>): (found: seq<Option<Category>>)
    ensures |found| == |rows|
  {
    Store.MapRows(rows, RowCategory)
  }

  /**
   * Reading line `i` of a table (`i >= 1`, after the header) with any `read`
   * pushes its entry, if any, after those of the lines before it.
   */
  lemma CollectMappedStep<T>(lines: seq<T>, read: T -> Option<Category>, i: nat, next: Option<Category>)
    requires 1 <= i < |lines| && next == read(lines[i])
    ensures Collect(Store.MapRows(lines[1..], read)[..i]) ==
      Collect(Store.MapRows(lines[1..], read)[..i - 1]) + (if next.Some? then [next.value] else [])
  {
    assert lines[1..][i - 1] == lines[i];
    CollectStep(Store.MapRows(lines[1..], read), i - 1, next);
  }

  /** Once every line after the header has been read, all of them are collected. */
  lemma CollectMappedAll<T>(lines: seq<T>, read: T -> Option<Category>)
    requires 1 <= |lines|
    ensures Collect(Store.MapRows(lines[1..], read)[..|lines| - 1]) == Collect(Store.MapRows(lines[1..], read))
  {
    var found := Store.MapRows(lines[1..], read);
    assert found[..|lines| - 1] == found;
  }

  /**
   * The whole parse: no table gives no categories; otherwise the data
   * lines of the table, less the first one (the header row), one category
   * per row that yields one.
   */
  function ParseTable(content: string): (r: seq<Category>)
    ensures TableText(content).None? ==> r == []
    ensures TableText(content).Some? ==>
      var rows := DataLines(Split(TableText(content).value, '\n'));
      && (|rows| <= 1 ==> r == [])
      && (|rows| > 1 ==> |r| < |rows| && forall c :: c in r <==> exists i :: 1 <= i < |rows| && RowCategory(rows[i]) == Some(c))
  {
    match TableText(content)
    case None => []
    case Some(t) =>
      var rows := DataLines(Split(t, '\n'));
      if |rows| <= 1 then [] else
        var found := RowCategories(rows[1..]);
        CollectedWereFound(found);
        InMappedTail(rows, RowCategory);
        Collect(found)
  }

  /** An entry read from a line after the header is one of what those lines read as. */
  lemma InMappedTail<T, U>(lines: seq<T>, read: T -> U)
    requires 1 <= |lines|
    ensures forall y :: y in Store.MapRows(lines[1..], read) <==> exists i :: 1 <= i < |lines| && read(lines[i]) == y
  {
    var found := Store.MapRows(lines[1..], read);
    forall y
      ensures y in found <==> exists i :: 1 <= i < |lines| && read(lines[i]) == y
    {
      if y in found {
        var k :| 0 <= k < |found| && found[k] == y;
        assert lines[1..][k] == lines[k + 1];
      }
      if exists i :: 1 <= i < |lines| && read(lines[i]) == y {
        var i :| 1 <= i < |lines| && read(lines[i]) == y;
        assert lines[1..][i - 1] == lines[i];
        assert found[i - 1] == y;
      }
    }
  }

  /** A summary without the table header yields no categories. */
  lemma NoHeaderNoCategories(content: string)
    requires !Includes(content, Header)
    ensures ParseTable(content) == []
  {
  }

  /**
   * Every category in the output has a name without "**", a positive
   * lesson count, and the emoji and colour its name looks up.
   */
  lemma ParsedCategoriesAreWellFormed(content: string)
    ensures forall c :: c in ParseTable(content) ==>
      && c.name != "" && NoDoubleStar(c.name) && c.lessonCount > 0
      && c.emoji == EmojiFor(c.name) && c.color == ColorFor(c.name)
  {
    if TableText(content).Some? {
      var rows := DataLines(Split(TableText(content).value, '\n'));
      if |rows| > 1 {
        var found := RowCategories(rows[1..]);
        CollectedWereFound(found);
        forall c | c in ParseTable(content)
          ensures c.name != "" && NoDoubleStar(c.name) && c.lessonCount > 0
          ensures c.emoji == EmojiFor(c.name) && c.color == ColorFor(c.name)
        {
          var i :| 0 <= i < |found| && found[i] == Some(c);
          RowCategoryShape(rows[1..][i]);
        }
      }
    }
  }

  /** The body of the row loop for one row. */
  method ParseRow(row: string) returns (category: Option<Category>)
    ensures category == RowCategory(row)
  {
    if Trim(row) == "" {
      return None;
    }
    var columns := Cells(row);
    category := None;
    if |columns| >= 4 {
      var name := Trim(RemoveDoubleStars(columns[0]));
      var lessonCount := CountOf(columns[1]);
      var freeLessons := CountOf(columns[2]);
      var topics := Trim(columns[3]);
      if name != "" && lessonCount > 0 {
        category := Some(Category(name, EmojiFor(name), lessonCount, freeLessons, topics, ColorFor(name)));
      }
    }
  }

  /** `parseContentBreakdownTable`: find the table, filter its lines, read the rows. */
  method ParseContentBreakdownTable(content: string) returns (categories: seq<Category>)
    ensures categories == ParseTable(content)
  {
    var tableMatch := TableText(content);
    if tableMatch.None? {
      return [];
    }
    var rows := DataLines(Split(tableMatch.value, '\n'));
    categories := ReadRows(rows);
  }

  /** The row loop: every row after the header, pushing onto `categories`. */
  method ReadRows(rows: seq<string>) returns (categories: seq<Category>)
    ensures categories == if |rows| <= 1 then [] else Collect(RowCategories(rows[1..]))
  {
    categories := [];
    if |rows| <= 1 {
      return;
    }
    ghost var found := RowCategories(rows[1..]);
    var i := 1;
    while i < |rows|
      invariant 1 <= i <= |rows|
      invariant categories == Collect(found[..i - 1])
    {
      var row := rows[i];
      var category := ParseRow(row);
      CollectMappedStep(rows, RowCategory, i, category);
      if category.Some? {
        categories := categories + [category.value];
      }
      i := i + 1;
    }
    CollectMappedAll(rows, RowCategory);
  }
}
