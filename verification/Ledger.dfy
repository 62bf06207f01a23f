/**
  What clients have been told: the writes acknowledged to them, the sessions they made them in
  and what an Open has shown them.  A book belongs to a history of a run and is kept beside it.
 */
module Ledgers {
  import opened Coding
  import opened Keys
  import opened Runs
  import opened Durability

  /** The records of the confirmed events, in order. */
  function Confirmed(h: History): seq<Record> {
    if h == [] then []
    else
      var e := h[|h| - 1];
      Confirmed(h[..|h| - 1]) + (if e.confirmed then [e.record] else [])
  }

  lemma {:induction false} ConfirmedConcat(a: History, b: History)
    ensures Confirmed(a + b) == Confirmed(a) + Confirmed(b)
  {
    if b == [] {
      assert a + b == a;
    } else {
      assert (a + b)[..|a + b| - 1] == a + b[..|b| - 1];
      ConfirmedConcat(a, b[..|b| - 1]);
    }
  }

  lemma ConfirmedOne(h: History, r: Record, confirmed: bool)
    ensures Confirmed(h + [Event(r, confirmed)]) == Confirmed(h) + if confirmed then [r] else []
  {
    var longer := h + [Event(r, confirmed)];
    assert longer[..|longer| - 1] == h;
  }

  /** The records of `part`, in order, are among those of `whole`. */
  ghost predicate Among(part: seq<Record>, whole: seq<Record>)
    decreases |whole|
  {
    if part == [] then true
    else if whole == [] then false
    else
      var rest := whole[..|whole| - 1];
      || (part[|part| - 1] == whole[|whole| - 1] && Among(part[..|part| - 1], rest))
      || Among(part, rest)
  }

  lemma {:induction false} AmongSelf(log: seq<Record>)
    ensures Among(log, log)
  {
    if log != [] { AmongSelf(log[..|log| - 1]); }
  }

  lemma AmongGrows(part: seq<Record>, whole: seq<Record>, r: Record)
    requires Among(part, whole)
    ensures Among(part, whole + [r]) && Among(part + [r], whole + [r])
  {
    assert (whole + [r])[..|whole|] == whole && (part + [r])[..|part|] == part;
  }

  lemma {:induction false} AmongTransitive(a: seq<Record>, b: seq<Record>, c: seq<Record>)
    requires Among(a, b) && Among(b, c)
    ensures Among(a, c)
    decreases |c|
  {
    if a != [] && c != [] {
      var rest := c[..|c| - 1];
      if b[|b| - 1] == c[|c| - 1] && Among(b[..|b| - 1], rest) {
        if a[|a| - 1] == b[|b| - 1] && Among(a[..|a| - 1], b[..|b| - 1]) {
          AmongTransitive(a[..|a| - 1], b[..|b| - 1], rest);
        } else {
          AmongTransitive(a, b[..|b| - 1], rest);
        }
      } else {
        AmongTransitive(a, b, rest);
      }
    }
  }

  /** A log that explains a history has its confirmed records, in order. */
  lemma {:induction false} ConfirmedAmong(log: seq<Record>, h: History)
    requires Explains(log, h)
    ensures Among(Confirmed(h), log)
    decreases |h|
  {
    if h != [] {
      var e, rest := h[|h| - 1], h[..|h| - 1];
      if log != [] && log[|log| - 1] == e.record && Explains(log[..|log| - 1], rest) {
        ConfirmedAmong(log[..|log| - 1], rest);
        AmongGrows(Confirmed(rest), log[..|log| - 1], e.record);
        assert log == log[..|log| - 1] + [e.record];
        assert Confirmed(rest) + [] == Confirmed(rest);
      } else {
        ConfirmedAmong(log, rest);
        assert Confirmed(rest) + [] == Confirmed(rest);
      }
    }
  }

  // ----- What is known for certain --------------------------------------------------------------

  /** A history in which exactly these records were written, all of them confirmed. */
  function Known(log: seq<Record>): (h: History)
    ensures |h| == |log| && forall i :: 0 <= i < |h| ==> h[i] == Event(log[i], true)
  {
    seq(|log|, i requires 0 <= i < |log| => Event(log[i], true))
  }

  lemma KnownAppend(log: seq<Record>, r: Record)
    ensures Known(log + [r]) == Known(log) + [Event(r, true)]
  {
  }

  lemma {:induction false} KnownConfirmed(log: seq<Record>)
    ensures Confirmed(Known(log)) == log
  {
    if log != [] {
      var n := |log| - 1;
      assert log == log[..n] + [log[n]];
      KnownAppend(log[..n], log[n]);
      ConfirmedOne(Known(log[..n]), log[n], true);
      KnownConfirmed(log[..n]);
    }
  }

  /** Only the log itself explains a history in which everything is confirmed. */
  lemma {:induction false} KnownExplains(log: seq<Record>, other: seq<Record>)
    ensures Explains(other, Known(log)) <==> other == log
    decreases |log|
  {
    if log != [] {
      var n, h := |log| - 1, Known(log);
      assert h[..n] == Known(log[..n]);
      if other != [] {
        KnownExplains(log[..n], other[..|other| - 1]);
        assert other == other[..|other| - 1] + [other[|other| - 1]] && log == log[..n] + [log[n]];
      }
    }
  }

  /** A log that explains a longer history has an explanation of the shorter one at its front. */
  lemma {:induction false} ExplainsFront(log: seq<Record>, a: History, b: History) returns (front: nat)
    requires Explains(log, a + b)
    ensures front <= |log| && Explains(log[..front], a) && Explains(log[front..], b)
    decreases |b|
  {
    if b == [] {
      assert a + b == a && log[..|log|] == log && log[|log|..] == [];
      front := |log|;
    } else {
      var e, rest := b[|b| - 1], b[..|b| - 1];
      assert (a + b)[|a + b| - 1] == e && (a + b)[..|a + b| - 1] == a + rest;
      if log != [] && log[|log| - 1] == e.record && Explains(log[..|log| - 1], a + rest) {
        var shorter := log[..|log| - 1];
        front := ExplainsFront(shorter, a, rest);
        assert shorter[..front] == log[..front];
        assert log[front..][..|log[front..]| - 1] == shorter[front..];
      } else {
        front := ExplainsFront(log, a, rest);
      }
    }
  }

  /** What was known for certain is the beginning of every explaining log. */
  lemma KnownPrefix(shown: seq<Record>, log: seq<Record>, h: History)
    requires Explains(log, h) && Known(shown) <= h
    ensures shown <= log
  {
    var rest := h[|shown|..];
    assert h == Known(shown) + rest;
    var front := ExplainsFront(log, Known(shown), rest);
    KnownExplains(shown, log[..front]);
  }

  // ----- Books ---------------------------------------------------------------------------------------

  /**
    `sessions` are the lengths of the history at which sessions began, `acked` the writes that were
    reported as successful, `shown` the log that the last Open of a synced disk found, `start` the
    moment of the run at which this session or restart began, and `asked` all requests to write.
   */
  datatype Book = Book(sessions: seq<nat>, acked: seq<Record>, shown: seq<Record>, start: nat, asked: seq<Request>)

  const NEW_BOOK: Book := Book([], [], [], 0, [])

  /** A Put or a Delete, as a client asks for it. */
  datatype Request = Request(kind: Kind, key: Key, value: Bytes)

  /** Between two unconfirmed records a new session began. */
  ghost predicate OneEach(h: History, sessions: seq<nat>) {
    forall i, j :: 0 <= i < j < |h| && !h[i].confirmed && !h[j].confirmed ==> exists s :: s in sessions && i < s <= j
  }

  /** Whatever was acknowledged is confirmed, whatever was shown is still known for certain. */
  ghost predicate BookOk(h: History, book: Book) {
    OneEach(h, book.sessions) && Among(book.acked, Confirmed(h)) && Known(book.shown) <= h
  }

  lemma EmptyBook()
    ensures BookOk([], NEW_BOOK)
  {
  }

  /** When a session began and what was asked for are on record only. */
  lemma BookMarks(h: History, book: Book, start: nat, asked: seq<Request>)
    ensures BookOk(h, book.(start := start, asked := asked)) == BookOk(h, book)
  {
    hide OneEach, Among, Confirmed;
  }

  /** A later state of the same session. */
  ghost predicate Earlier(a: Book, b: Book) {
    a.shown == b.shown && a.start == b.start && a.acked <= b.acked
  }

  /** A session begins. */
  lemma BeginsOk(h: History, book: Book, start: nat)
    requires BookOk(h, book)
    ensures BookOk(h, book.(sessions := book.sessions + [|h|], start := start)) && |h| in book.sessions + [|h|]
  {
    hide Among, Confirmed;
    forall i, j | 0 <= i < j < |h| && !h[i].confirmed && !h[j].confirmed ensures exists s :: s in book.sessions + [|h|] && i < s <= j {
      var s :| s in book.sessions && i < s <= j;
      assert s in book.sessions + [|h|];
    }
  }

  /** Of the records written since `since`, only the last may be unconfirmed, and only if writing has stopped. */
  ghost predicate SessionOk(h: History, since: nat, poisoned: bool) {
    since <= |h| && forall i :: since <= i < |h| && !h[i].confirmed ==> poisoned && i == |h| - 1
  }

  lemma SessionStarts(h: History)
    ensures SessionOk(h, |h|, false)
  {
  }

  lemma SessionGrows(h: History, since: nat, r: Record, confirmed: bool)
    requires SessionOk(h, since, false)
    ensures SessionOk(h + [Event(r, confirmed)], since, !confirmed)
  {
  }

  /** A healthy session may hand one more record to its log. */
  lemma BookGrows(h: History, book: Book, since: nat, r: Record, confirmed: bool)
    requires BookOk(h, book) && SessionOk(h, since, false) && since in book.sessions
    ensures BookOk(h + [Event(r, confirmed)], book)
  {
    hide Among, Confirmed;
    ConfirmedOne(h, r, confirmed);
    AmongGrows(book.acked, Confirmed(h), r);
    assert Confirmed(h) + [] == Confirmed(h);
    var longer := h + [Event(r, confirmed)];
    forall i, j | 0 <= i < j < |longer| && !longer[i].confirmed && !longer[j].confirmed
      ensures exists s :: s in book.sessions && i < s <= j
    {
      assert i < |h| && longer[i] == h[i];
      if j < |h| {
        assert longer[j] == h[j];
      }
    }
  }

  /** A session that the book knows of. */
  ghost predicate Attends(h: History, book: Book, since: nat, poisoned: bool) {
    SessionOk(h, since, poisoned) && since in book.sessions
  }

  lemma AttendsIs(h: History, book: Book, since: nat, poisoned: bool)
    ensures Attends(h, book, since, poisoned) <==> SessionOk(h, since, poisoned) && since in book.sessions
  {
    hide SessionOk;
  }

  lemma AttendsBook(h: History, book: Book, book': Book, since: nat, poisoned: bool)
    requires book'.sessions == book.sessions
    ensures Attends(h, book', since, poisoned) == Attends(h, book, since, poisoned)
  {
    hide SessionOk;
  }

  lemma AttendsGrows(h: History, book: Book, since: nat, r: Record, confirmed: bool)
    requires BookOk(h, book) && Attends(h, book, since, false)
    ensures Attends(h + [Event(r, confirmed)], book, since, !confirmed) && BookOk(h + [Event(r, confirmed)], book)
  {
    hide *;
    AttendsIs(h, book, since, false);
    SessionGrows(h, since, r, confirmed);
    BookGrows(h, book, since, r, confirmed);
    AttendsIs(h + [Event(r, confirmed)], book, since, !confirmed);
  }

  /** A confirmed record may be acknowledged. */
  lemma AcksOk(h: History, book: Book, r: Record)
    requires BookOk(h, book)
    ensures BookOk(h + [Event(r, true)], book.(acked := book.acked + [r]))
  {
    hide Among, Confirmed;
    ConfirmedOne(h, r, true);
    AmongGrows(book.acked, Confirmed(h), r);
    var longer := h + [Event(r, true)];
    forall i, j | 0 <= i < j < |longer| && !longer[i].confirmed && !longer[j].confirmed
      ensures exists s :: s in book.sessions && i < s <= j
    {
      assert longer[i] == h[i] && longer[j] == h[j];
    }
  }

  /** A session begins on a synced disk: what Open finds there is known for certain from then on. */
  lemma AdoptsOk(h: History, book: Book, log: seq<Record>, start: nat)
    requires BookOk(h, book) && Explains(log, h)
    ensures BookOk(Known(log), Book([|log|], book.acked, log, start, book.asked)) && book.shown <= log
  {
    hide Among, Confirmed, Explains;
    ConfirmedAmong(log, h);
    AmongTransitive(book.acked, Confirmed(h), log);
    KnownConfirmed(log);
    KnownPrefix(book.shown, log, h);
  }

  /** Acknowledged records are in every log that explains the history, in order, and so is what was shown, at its front. */
  lemma BookExplained(h: History, book: Book, log: seq<Record>)
    requires BookOk(h, book) && Explains(log, h)
    ensures Among(book.acked, log) && book.shown <= log
  {
    hide Among, Confirmed, Explains;
    ConfirmedAmong(log, h);
    AmongTransitive(book.acked, Confirmed(h), log);
    KnownPrefix(book.shown, log, h);
  }
}
