/** The prompt formatter (tuple_maker.py): rank the scraped rows by likes,
    keep the top 50, flatten newlines, render each row as a Python-style tuple
    and join the tuples with ",\n". Reading the CSV is foreign I/O; its outcome
    is the `CsvFile` value the formatter is given. */
module TupleMaker {
  import opened Common

  /** `.head(50)`: the number of rows kept. */
  const TopCount := 50

  /** A DataFrame row once `like_count` is numeric. */
  datatype Row = Row(username: string, text: string, likes: int)

  /** A `like_count` cell as read from the CSV. */
  datatype LikeCell = Numeric(count: int) | NotNumeric

  datatype CsvRow = CsvRow(username: string, text: string, likeCount: LikeCell)

  /** What `pd.read_csv` yields: no file, a file it cannot parse (an empty
      file among them), or a table of rows. */
  datatype CsvFile = Missing | Unreadable | Table(rows: seq<CsvRow>)

  /** `pd.to_numeric` on the `like_count` column: every cell converts, or the
      call raises (None). */
  function ToNumeric(rows: seq<CsvRow>): (r: Option<seq<Row>>)
    ensures r.Some? <==> forall i :: 0 <= i < |rows| ==> rows[i].likeCount.Numeric?
    ensures r.Some? ==> |r.value| == |rows|
    ensures r.Some? ==> forall i :: 0 <= i < |rows| ==>
      r.value[i] == Row(rows[i].username, rows[i].text, rows[i].likeCount.count)
  {
    if rows == [] then Some([])
    else
      match (rows[0].likeCount, ToNumeric(rows[1..]))
      case (Numeric(n), Some(rest)) => Some([Row(rows[0].username, rows[0].text, n)] + rest)
      case _ => None
  }

  // ---------------------------------------------------------------------
  // Ranking: sort_values(by="like_count", ascending=False)
  // ---------------------------------------------------------------------

  /** Likes never increase along the sequence. */
  ghost predicate NonIncreasing(rows: seq<Row>)
  {
    forall i, j :: 0 <= i < j < |rows| ==> rows[i].likes >= rows[j].likes
  }

  /** `ranked` is an order a descending sort on likes may produce: the same
      rows, by non-increasing likes. The order of ties is left open, since the
      default pandas sort is not stable. */
  ghost predicate IsRanking(rows: seq<Row>, ranked: seq<Row>)
  {
    multiset(ranked) == multiset(rows) && NonIncreasing(ranked)
  }

  /** Places `x` before the first row with fewer likes. */
  function Insert(x: Row, ranked: seq<Row>): seq<Row>
  {
    if ranked == [] || x.likes >= ranked[0].likes then [x] + ranked
    else [ranked[0]] + Insert(x, ranked[1..])
  }

  lemma {:induction false} InsertKeepsRows(x: Row, ranked: seq<Row>)
    ensures multiset(Insert(x, ranked)) == multiset([x] + ranked)
    decreases |ranked|
  {
    if ranked != [] && x.likes < ranked[0].likes {
      InsertKeepsRows(x, ranked[1..]);
      assert ranked == [ranked[0]] + ranked[1..];
      calc {
        multiset(Insert(x, ranked));
        multiset([ranked[0]]) + multiset(Insert(x, ranked[1..]));
        multiset([ranked[0]]) + multiset([x] + ranked[1..]);
        multiset([x] + ranked);
      }
    }
  }

  /** Rows bounded by `b` stay bounded when a row bounded by `b` is inserted. */
  lemma {:induction false} InsertBounded(x: Row, ranked: seq<Row>, b: int)
    requires x.likes <= b
    requires forall k :: 0 <= k < |ranked| ==> ranked[k].likes <= b
    ensures forall k :: 0 <= k < |Insert(x, ranked)| ==> Insert(x, ranked)[k].likes <= b
    decreases |ranked|
  {
    if ranked != [] && x.likes < ranked[0].likes {
      InsertBounded(x, ranked[1..], b);
    }
  }

  lemma {:induction false} InsertOrdered(x: Row, ranked: seq<Row>)
    requires NonIncreasing(ranked)
    ensures NonIncreasing(Insert(x, ranked))
    decreases |ranked|
  {
    if ranked != [] && x.likes < ranked[0].likes {
      var rest := Insert(x, ranked[1..]);
      InsertOrdered(x, ranked[1..]);
      InsertBounded(x, ranked[1..], ranked[0].likes);
      var r := [ranked[0]] + rest;
      forall i, j | 0 <= i < j < |r|
        ensures r[i].likes >= r[j].likes
      {
        assert r[j] == rest[j - 1];
        if i > 0 {
          assert r[i] == rest[i - 1];
        }
      }
    }
  }

  /** One admissible ranking (an insertion sort). Every property below is
      proved for any ranking, not only this one. */
  function SortByLikes(rows: seq<Row>): (ranked: seq<Row>)
    ensures IsRanking(rows, ranked)
  {
    if rows == [] then []
    else
      assert rows == [rows[0]] + rows[1..];
      InsertKeepsRows(rows[0], SortByLikes(rows[1..]));
      InsertOrdered(rows[0], SortByLikes(rows[1..]));
      Insert(rows[0], SortByLikes(rows[1..]))
  }

  /** Keeping the first `k` rows of any ranking keeps rows drawn from the
      input, in non-increasing order, and every row left out has no more likes
      than any row kept. */
  lemma TopOfRanking(rows: seq<Row>, ranked: seq<Row>, k: nat)
    requires IsRanking(rows, ranked)
    requires k <= |ranked|
    ensures NonIncreasing(ranked[..k])
    ensures multiset(ranked[..k]) <= multiset(rows)
    ensures forall x, y :: x in multiset(rows) - multiset(ranked[..k]) && y in ranked[..k] ==> x.likes <= y.likes
  {
    DroppedIsRest(ranked, k);
    DroppedNoMore(ranked, k);
  }

  /** What a cut drops is what is left of the multiset. */
  lemma DroppedIsRest(ranked: seq<Row>, k: nat)
    requires k <= |ranked|
    ensures multiset(ranked[..k]) <= multiset(ranked)
    ensures multiset(ranked) - multiset(ranked[..k]) == multiset(ranked[k..])
  {
    assert ranked == ranked[..k] + ranked[k..];
  }

  /** In a non-increasing sequence, no row after a cut has more likes than a
      row before it. */
  lemma DroppedNoMore(ranked: seq<Row>, k: nat)
    requires NonIncreasing(ranked)
    requires k <= |ranked|
    ensures forall x, y :: x in ranked[k..] && y in ranked[..k] ==> x.likes <= y.likes
  {
    forall x: Row, y: Row | x in ranked[k..] && y in ranked[..k]
      ensures x.likes <= y.likes
    {
      var i :| 0 <= i < |ranked[k..]| && ranked[k..][i] == x;
      var j :| 0 <= j < |ranked[..k]| && ranked[..k][j] == y;
      assert ranked[j] == y && ranked[k + i] == x;
    }
  }

  /** `sort_values(...).head(50)`: exactly min(50, n) rows, in non-increasing
      order of likes, drawn from the input rows (each row whole), and no row
      left out has more likes than a row kept. */
  function SelectTop(rows: seq<Row>): (top: seq<Row>)
    ensures |top| == Min(TopCount, |rows|)
    ensures NonIncreasing(top)
    ensures multiset(top) <= multiset(rows)
    ensures forall x, y :: x in multiset(rows) - multiset(top) && y in top ==> x.likes <= y.likes
  {
    var ranked := SortByLikes(rows);
    assert |ranked| == |multiset(ranked)| == |rows|;
    TopOfRanking(rows, ranked, Min(TopCount, |ranked|));
    ranked[..Min(TopCount, |ranked|)]
  }

  // ---------------------------------------------------------------------
  // Rendering one row
  // ---------------------------------------------------------------------

  /** `str(text).replace('\n', ' ')`: same length, no newline left, every
      other character unchanged. */
  function CleanText(t: string): (c: string)
    ensures |c| == |t|
    ensures '\n' !in c
    ensures forall i :: 0 <= i < |t| && t[i] != '\n' ==> c[i] == t[i]
    ensures forall i :: 0 <= i < |t| && t[i] == '\n' ==> c[i] == ' '
  {
    if t == [] then []
    else (if t[0] == '\n' then " " else [t[0]]) + CleanText(t[1..])
  }

  /** The quote Python's repr chooses: a single quote, unless the text holds a
      single quote and no double quote. */
  function QuoteFor(t: string): (q: char)
    ensures q == '\'' || q == '"'
    ensures q in t ==> '\'' in t && '"' in t
  {
    if '\'' in t && '"' !in t then '"' else '\''
  }

  function HexDigit(d: int): char
    requires 0 <= d < 16
  {
    if d < 10 then ('0' as int + d) as char else ('a' as int + d - 10) as char
  }

  function HexValue(c: char): (v: Option<int>)
    ensures v.Some? ==> 0 <= v.value < 16
  {
    if '0' <= c <= '9' then Some(c as int - '0' as int)
    else if 'a' <= c <= 'f' then Some(c as int - 'a' as int + 10)
    else None
  }

  /** How repr writes one character inside quotes `q`. */
  function EscapeChar(c: char, q: char): (e: string)
    requires q == '\'' || q == '"'
    ensures '\n' !in e
    ensures e == [c] <==> c != '\\' && c != q && ' ' <= c && c as int != 0x7F
  {
    if c == '\\' then "\\\\"
    else if c == q then ['\\', q]
    else if c == '\n' then "\\n"
    else if c == '\r' then "\\r"
    else if c == '\t' then "\\t"
    else if c < ' ' || c as int == 0x7F then ['\\', 'x', HexDigit(c as int / 16), HexDigit(c as int % 16)]
    else [c]
  }

  function Escape(t: string, q: char): (e: string)
    requires q == '\'' || q == '"'
    ensures '\n' !in e
  {
    if t == [] then [] else EscapeChar(t[0], q) + Escape(t[1..], q)
  }

  /** Python's `repr` of a string, for ASCII: quoted, with backslash, the
      chosen quote and control characters escaped. The result never holds a
      raw newline. */
  function Repr(t: string): (r: string)
    ensures |r| >= 2 && r[0] == QuoteFor(t) && r[|r| - 1] == QuoteFor(t)
    ensures '\n' !in r
  {
    [QuoteFor(t)] + Escape(t, QuoteFor(t)) + [QuoteFor(t)]
  }

  function Cons(c: char, rest: Option<string>): Option<string>
  {
    match rest
    case Some(s) => Some([c] + s)
    case None => None
  }

  /** Reads back the body of a quoted literal written with quote `q`. */
  function Unescape(e: string, q: char): Option<string>
    decreases |e|
  {
    if e == [] then Some([])
    else if e[0] == q then None
    else if e[0] != '\\' then Cons(e[0], Unescape(e[1..], q))
    else if |e| < 2 then None
    else if e[1] == '\\' || e[1] == q then Cons(e[1], Unescape(e[2..], q))
    else if e[1] == 'n' then Cons('\n', Unescape(e[2..], q))
    else if e[1] == 'r' then Cons('\r', Unescape(e[2..], q))
    else if e[1] == 't' then Cons('\t', Unescape(e[2..], q))
    else if e[1] == 'x' && |e| >= 4 && HexValue(e[2]).Some? && HexValue(e[3]).Some? then
      Cons((HexValue(e[2]).value * 16 + HexValue(e[3]).value) as char, Unescape(e[4..], q))
    else None
  }

  /** Reads a literal written by `Repr` back into the text it stands for. */
  function Unrepr(r: string): Option<string>
  {
    if |r| >= 2 && (r[0] == '\'' || r[0] == '"') && r[|r| - 1] == r[0] then Unescape(r[1..|r| - 1], r[0])
    else None
  }

  /** Reading back one escaped character yields that character. */
  lemma UnescapeChar(c: char, rest: string, q: char)
    requires q == '\'' || q == '"'
    ensures Unescape(EscapeChar(c, q) + rest, q) == Cons(c, Unescape(rest, q))
  {
    var e := EscapeChar(c, q) + rest;
    if c == '\\' || c == q || c == '\n' || c == '\r' || c == '\t' {
      assert e[2..] == rest;
    } else if c < ' ' || c as int == 0x7F {
      var hi, lo := c as int / 16, c as int % 16;
      assert HexValue(e[2]) == Some(hi);
      assert HexValue(e[3]) == Some(lo);
      assert e[4..] == rest;
      assert (hi * 16 + lo) as char == c;
    } else {
      assert e[1..] == rest;
    }
  }

  lemma {:induction false} UnescapeEscape(t: string, q: char)
    requires q == '\'' || q == '"'
    ensures Unescape(Escape(t, q), q) == Some(t)
    decreases |t|
  {
    if t != [] {
      UnescapeEscape(t[1..], q);
      UnescapeChar(t[0], Escape(t[1..], q), q);
      assert t == [t[0]] + t[1..];
    }
  }

  /** repr loses nothing: the literal reads back to the text it was made from. */
  lemma ReprRoundTrip(t: string)
    ensures Unrepr(Repr(t)) == Some(t)
  {
    var q := QuoteFor(t);
    var r := Repr(t);
    assert r[1..|r| - 1] == Escape(t, q);
    UnescapeEscape(t, q);
  }

  /** The decimal digits of a natural number, with no leading zero. */
  function DigitsOf(n: nat): (s: string)
    ensures |s| >= 1
    ensures forall i :: 0 <= i < |s| ==> '0' <= s[i] <= '9'
    ensures s[0] == '0' ==> n == 0
  {
    if n < 10 then [('0' as int + n) as char]
    else DigitsOf(n / 10) + [('0' as int + n % 10) as char]
  }

  /** The number a string of decimal digits stands for. */
  function DecimalValue(s: string): int
    decreases |s|
  {
    if s == [] then 0 else DecimalValue(s[..|s| - 1]) * 10 + (s[|s| - 1] as int - '0' as int)
  }

  /** The digits read back to the number they were written from. */
  lemma {:induction false} DigitsOfValue(n: nat)
    ensures DecimalValue(DigitsOf(n)) == n
  {
    if n >= 10 {
      DigitsOfValue(n / 10);
      var s := DigitsOf(n);
      assert s[..|s| - 1] == DigitsOf(n / 10);
    }
  }

  /** Python's `str(n)` for an integer: a minus sign exactly for a negative
      number, then the decimal digits of its magnitude, with no leading
      zero, which read back to that magnitude. */
  function IntToString(n: int): (r: string)
    ensures |r| >= 1 && (r[0] == '-' <==> n < 0)
    ensures var digits := if n < 0 then r[1..] else r;
      && |digits| >= 1
      && (forall i :: 0 <= i < |digits| ==> '0' <= digits[i] <= '9')
      && (digits[0] == '0' ==> n == 0)
      && DecimalValue(digits) == if n < 0 then -n else n
  {
    DigitsOfValue(if n < 0 then -n else n);
    if n < 0 then "-" + DigitsOf(-n) else DigitsOf(n)
  }

  /** One record: `(username, repr(cleaned text), likes)`, each field in
      its place between the parentheses and the ", " separators. */
  function Render(row: Row): (line: string)
    ensures var user, text, likes := row.username, Repr(CleanText(row.text)), IntToString(row.likes);
      && |line| == |user| + |text| + |likes| + 6
      && line[..|user| + 3] == "(" + user + ", "
      && line[|user| + 3..|line| - |likes| - 3] == text
      && line[|line| - |likes| - 3..] == ", " + likes + ")"
  {
    var user, text, likes := row.username, Repr(CleanText(row.text)), IntToString(row.likes);
    FieldsAt(user, text, likes);
    "(" + user + ", " + text + ", " + likes + ")"
  }

  /** Where the three fields sit in `(user, text, likes)`, and that the
      punctuation adds no newline. */
  lemma FieldsAt(user: string, text: string, likes: string)
    ensures var line := "(" + user + ", " + text + ", " + likes + ")";
      && |line| == |user| + |text| + |likes| + 6
      && line[..|user| + 3] == "(" + user + ", "
      && line[|user| + 3..|line| - |likes| - 3] == text
      && line[|line| - |likes| - 3..] == ", " + likes + ")"
      && ('\n' in line <==> '\n' in user || '\n' in text || '\n' in likes)
  {
    var line := "(" + user + ", " + text + ", " + likes + ")";
    assert line == ("(" + user + ", ") + text + (", " + likes + ")");
  }

  /** A record stays on one line when the username does: the text is
      cleaned and repr escapes what is left. */
  lemma RenderOneLine(row: Row)
    requires '\n' !in row.username
    ensures '\n' !in Render(row)
  {
    var user, text, likes := row.username, Repr(CleanText(row.text)), IntToString(row.likes);
    forall i | 0 <= i < |likes|
      ensures likes[i] != '\n'
    {
      if row.likes < 0 && i > 0 {
        assert likes[i] == likes[1..][i - 1];
      }
    }
    FieldsAt(user, text, likes);
  }

  function Records(top: seq<Row>): (lines: seq<string>)
    ensures |lines| == |top|
    ensures forall i :: 0 <= i < |top| ==> lines[i] == Render(top[i])
  {
    if top == [] then [] else [Render(top[0])] + Records(top[1..])
  }

  // ---------------------------------------------------------------------
  // Joining and the whole formatter
  // ---------------------------------------------------------------------

  /** The separator `format_tweets_for_prompt` joins records with. */
  const Separator: string := ",\n"

  /** `",\n".join(lines)`: "" for no lines; otherwise it starts with the
      first line. */
  function JoinLines(lines: seq<string>): (s: string)
    ensures lines == [] ==> s == ""
    ensures lines != [] ==> lines[0] <= s
  {
    if lines == [] then ""
    else if |lines| == 1 then lines[0]
    else lines[0] + Separator + JoinLines(lines[1..])
  }

  /** The joined lines end with the last line, so no separator trails. */
  lemma {:induction false} JoinLinesEnds(lines: seq<string>)
    requires lines != []
    ensures var s, last := JoinLines(lines), lines[|lines| - 1];
      |last| <= |s| && s[|s| - |last|..] == last
    decreases |lines|
  {
    if |lines| > 1 {
      var rest := lines[1..];
      JoinLinesEnds(rest);
      var head, tail, last := lines[0] + Separator, JoinLines(rest), rest[|rest| - 1];
      assert JoinLines(lines) == head + tail;
      assert (head + tail)[|head + tail| - |last|..] == tail[|tail| - |last|..];
    }
  }

  /** Exactly one separator stands between two joined blocks of lines. */
  lemma {:induction false} JoinLinesConcat(a: seq<string>, b: seq<string>)
    requires a != [] && b != []
    ensures JoinLines(a + b) == JoinLines(a) + Separator + JoinLines(b)
    decreases |a|
  {
    if |a| == 1 {
      assert (a + b)[1..] == b;
    } else {
      assert (a + b)[1..] == a[1..] + b;
      JoinLinesConcat(a[1..], b);
    }
  }

  /** `format_tweets_for_prompt`: the empty string exactly when the file is
      missing or unreadable, a like count is not numeric, or there are no
      rows; otherwise the joined records of the top rows: min(50, n) whole
      rows, by non-increasing likes, none dropped above one kept. */
  function FormatTweetsForPrompt(csv: CsvFile): (out: string)
    ensures out == "" <==> !csv.Table? || ToNumeric(csv.rows).None? || |csv.rows| == 0
    ensures csv.Table? && ToNumeric(csv.rows).Some? ==>
      var rows := ToNumeric(csv.rows).value;
      exists top: seq<Row> {:trigger Records(top)} ::
        && |top| == Min(TopCount, |rows|)
        && NonIncreasing(top)
        && multiset(top) <= multiset(rows)
        && (forall x, y :: x in multiset(rows) - multiset(top) && y in top ==> x.likes <= y.likes)
        && out == JoinLines(Records(top))
  {
    match csv
    case Missing => ""
    case Unreadable => ""
    case Table(rows) =>
      match ToNumeric(rows)
      case None => ""
      case Some(numeric) => JoinLines(Records(SelectTop(numeric)))
  }
}
