/** Vocabulary shared by every part of the bot: optional values, the actions a
    run performs on the outside world (recorded in order as a trace), and the
    few Python string operations the decision logic relies on. */
module Common {

  datatype Option<+T> = None | Some(value: T)

  /** One externally visible step of a run. */
  datatype Action =
    | Notify(category: string)         // send_error_notification with this error_type
    | GetPage(cursor: Option<string>)  // one GET of the community tweets endpoint
    | SaveCsv                          // DataFrame.to_csv of the scraped records
    | RemoveCsv                        // os.remove of the CSV buffer
    | Generate(model: string)          // one messages.create call on this model
    | SendApproval                     // sendMessage with the approve/deny keyboard
    | GetUpdates(offset: Option<int>)  // one getUpdates poll
    | EditMessage(text: string)        // editMessageText on the approval message
    | PostTweet                        // post_tweet

  /** A notification that is only sent when `enabled` holds. */
  function Alert(enabled: bool, category: string): seq<Action>
  {
    if enabled then [Notify(category)] else []
  }

  function Min(a: int, b: int): int
  {
    if a <= b then a else b
  }

  /** Python's `part in s`: never true of a part longer than the text, and
      always true of a prefix of it (the empty part included); see
      `ContainsIffOccurs` for the exact meaning. */
  predicate Contains(s: string, part: string)
    ensures Contains(s, part) ==> |part| <= |s|
    ensures part <= s ==> Contains(s, part)
    decreases |s|
  {
    |part| <= |s| && (s[..|part|] == part || (|s| > 0 && Contains(s[1..], part)))
  }

  /** `part` occurs in `s` starting at index `i`. */
  predicate OccursAt(s: string, part: string, i: int)
  {
    0 <= i && i + |part| <= |s| && s[i..i + |part|] == part
  }

  /** `Contains` holds exactly when `part` occurs somewhere in `s`. */
  lemma {:induction false} ContainsIffOccurs(s: string, part: string)
    ensures Contains(s, part) <==> exists i :: OccursAt(s, part, i)
    decreases |s|
  {
    if |s| > 0 {
      ContainsIffOccurs(s[1..], part);
    }
    if exists i :: OccursAt(s, part, i) {
      var i :| OccursAt(s, part, i);
      if i > 0 {
        assert s[1..][i - 1..i - 1 + |part|] == s[i..i + |part|];
        assert OccursAt(s[1..], part, i - 1);
      }
    }
    if |s| > 0 && Contains(s[1..], part) {
      var j :| OccursAt(s[1..], part, j);
      assert s[j + 1..j + 1 + |part|] == s[1..][j..j + |part|];
      assert OccursAt(s, part, j + 1);
    }
    if Contains(s, part) && s[..|part|] == part {
      assert OccursAt(s, part, 0);
    }
  }

  /** A string that holds `part` holds every piece of `part`. */
  lemma ContainsPiece(s: string, part: string, piece: string, k: nat)
    requires OccursAt(part, piece, k) && Contains(s, part)
    ensures Contains(s, piece)
  {
    ContainsIffOccurs(s, part);
    ContainsIffOccurs(s, piece);
    var i :| OccursAt(s, part, i);
    assert s[i..i + |part|] == part;
    forall m | 0 <= m < |piece|
      ensures s[i + k + m] == piece[m]
    {
      assert s[i + k + m] == s[i..i + |part|][k + m];
      assert piece[m] == part[k..k + |piece|][m];
    }
    assert s[i + k..i + k + |piece|] == piece;
    assert OccursAt(s, piece, i + k);
  }

  /** Python's `str.lower()` on ASCII letters; every other character is kept. */
  function LowerChar(c: char): (r: char)
    ensures !('A' <= r <= 'Z')
    ensures 'A' <= c <= 'Z' ==> r as int == c as int + 32
    ensures !('A' <= c <= 'Z') ==> r == c
  {
    if 'A' <= c <= 'Z' then (c as int - 'A' as int + 'a' as int) as char else c
  }

  function Lower(s: string): (r: string)
    ensures |r| == |s|
    ensures forall i :: 0 <= i < |s| ==> r[i] == LowerChar(s[i])
    ensures forall i :: 0 <= i < |r| ==> !('A' <= r[i] <= 'Z')
  {
    seq(|s|, i requires 0 <= i < |s| => LowerChar(s[i]))
  }

  /** The labels of the notifications in a trace, in order. */
  function Notifications(trace: seq<Action>): seq<string>
  {
    if trace == [] then []
    else (if trace[0].Notify? then [trace[0].category] else []) + Notifications(trace[1..])
  }

  lemma {:induction false} NotificationsAppend(a: seq<Action>, b: seq<Action>)
    ensures Notifications(a + b) == Notifications(a) + Notifications(b)
    decreases |a|
  {
    if a == [] {
      assert a + b == b;
    } else {
      assert (a + b)[0] == a[0];
      assert (a + b)[1..] == a[1..] + b;
      NotificationsAppend(a[1..], b);
      var head := if a[0].Notify? then [a[0].category] else [];
      assert Notifications(a + b) == head + (Notifications(a[1..]) + Notifications(b));
      assert head + (Notifications(a[1..]) + Notifications(b)) == (head + Notifications(a[1..])) + Notifications(b);
    }
  }

  /** How many actions of a trace satisfy `p`. */
  function Count(trace: seq<Action>, p: Action -> bool): nat
  {
    if trace == [] then 0
    else (if p(trace[0]) then 1 else 0) + Count(trace[1..], p)
  }

  lemma {:induction false} CountAppend(a: seq<Action>, b: seq<Action>, p: Action -> bool)
    ensures Count(a + b, p) == Count(a, p) + Count(b, p)
    decreases |a|
  {
    if a == [] {
      assert a + b == b;
    } else {
      assert (a + b)[0] == a[0];
      assert (a + b)[1..] == a[1..] + b;
      CountAppend(a[1..], b, p);
    }
  }

  lemma CountOne(x: Action, p: Action -> bool)
    ensures Count([x], p) == if p(x) then 1 else 0
  {
    assert [x][1..] == [];
  }

  /** Counting on a two-action trace. */
  lemma CountPair(x: Action, y: Action, p: Action -> bool)
    ensures Count([x, y], p) == (if p(x) then 1 else 0) + (if p(y) then 1 else 0)
  {
    assert [x, y] == [x] + [y];
    CountAppend([x], [y], p);
    CountOne(x, p);
    CountOne(y, p);
  }

  /** A trace with no action satisfying `p` counts zero. */
  lemma {:induction false} CountNone(trace: seq<Action>, p: Action -> bool)
    requires forall a :: a in trace ==> !p(a)
    ensures Count(trace, p) == 0
    decreases |trace|
  {
    if trace != [] {
      assert trace[0] in trace;
      assert forall a :: a in trace[1..] ==> a in trace;
      CountNone(trace[1..], p);
    }
  }

  /** Taking one more element of a sequence appends it. */
  lemma TakeOneMore<T>(s: seq<T>, j: nat)
    requires j < |s|
    ensures s[..j + 1] == s[..j] + [s[j]]
  {
  }

  /** A slice is its first element followed by the rest of it. */
  lemma SliceCons<T>(s: seq<T>, i: nat, k: nat)
    requires i < k <= |s|
    ensures s[i..k] == [s[i]] + s[i + 1..k]
  {
  }

  /** Prepending to a sequence built of three parts. */
  lemma PrependThree<T>(a: seq<T>, b: seq<T>, c: seq<T>, d: seq<T>)
    ensures a + (b + c + d) == a + b + c + d
  {
  }
}
