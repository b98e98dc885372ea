/** The WebPush subscription store: the `subscriptions` table, held as its
    rows in insertion order, and the quote escaping applied to the values
    stored in it. */
module WebPushStore {
  import opened Common

  /** `escape`: every `'` doubled, as SQL string literals need. */
  function Escape(s: string): (r: string)
    ensures |r| == |s| + Quotes(s)
  {
    if |s| == 0 then ""
    else Escape(s[..|s| - 1]) + (if s[|s| - 1] == '\'' then "''" else [s[|s| - 1]])
  }

  /** The number of `'` in `s`. */
  function Quotes(s: string): nat {
    if |s| == 0 then 0 else Quotes(s[..|s| - 1]) + (if s[|s| - 1] == '\'' then 1 else 0)
  }

  /** The reading of an escaped text: each `''` back to one `'`. */
  function Unescape(s: string): string
    decreases |s|
  {
    if |s| >= 2 && s[..2] == "''" then "'" + Unescape(s[2..])
    else if |s| == 0 then ""
    else [s[0]] + Unescape(s[1..])
  }

  /** One escaped character in front of a text reads back as that
      character. */
  lemma UnescapePiece(c: char, t: string)
    ensures Unescape(Escape([c]) + t) == [c] + Unescape(t)
  {
    assert [c][..0] == [];
    var piece := Escape([c]);
    if c == '\'' {
      assert piece == "''";
      assert (piece + t)[..2] == "''" && (piece + t)[2..] == t;
    } else {
      assert piece == [c];
      assert (piece + t)[0] == c && (piece + t)[1..] == t;
    }
  }

  /** Escaping a text and then appending escaped characters is escaping the
      whole. */
  lemma {:induction false} UnescapeAppend(s: string, t: string)
    ensures Unescape(Escape(s) + t) == s + Unescape(t)
    decreases |s|
  {
    if |s| > 0 {
      var init, c := s[..|s| - 1], s[|s| - 1];
      assert [c][..0] == [];
      var piece := Escape([c]);
      assert Escape(s) == Escape(init) + piece;
      assert Escape(s) + t == Escape(init) + (piece + t);
      UnescapeAppend(init, piece + t);
      UnescapePiece(c, t);
      assert s == init + [c];
    } else {
      assert Escape(s) + t == t;
    }
  }

  /** Escaping loses nothing: the stored text reads back as the original. */
  lemma UnescapeEscape(s: string)
    ensures Unescape(Escape(s)) == s
  {
    UnescapeAppend(s, "");
    assert Escape(s) + "" == Escape(s);
    assert Unescape("") == "";
  }

  /** So distinct texts are stored as distinct texts. */
  lemma EscapeInjective(s: string, t: string)
    requires Escape(s) == Escape(t)
    ensures s == t
  {
    UnescapeEscape(s);
    UnescapeEscape(t);
  }

  /** A text without quotes is stored as it is. */
  lemma {:induction false} EscapePlain(s: string)
    requires forall i :: 0 <= i < |s| ==> s[i] != '\''
    ensures Escape(s) == s
  {
    if |s| > 0 {
      EscapePlain(s[..|s| - 1]);
      assert s == s[..|s| - 1] + [s[|s| - 1]];
    }
  }

  /** `escape_option`. */
  function EscapeOption(opt: Option<string>): (r: Option<string>)
    ensures r.None? <==> opt.None?
    ensures r.Some? ==> r.value == Escape(opt.value)
  {
    match opt
    case Some(x) => Some(Escape(x))
    case None => None
  }

  /** A subscription: where to push and how to encrypt. */
  datatype Subscription = Subscription(pushUri: string, publicKey: string, auth: Option<string>)

  /** A row of the `subscriptions` table. */
  datatype Row = Row(userId: int, pushUri: string, publicKey: string, auth: Option<string>)

  /** The only failure the table semantics produce: a second row with the
      same `push_uri`. */
  datatype DbError = UniqueConstraintFailed

  /** The row `subscribe` inserts: the values escaped. */
  function StoredRow(userId: int, sub: Subscription): Row {
    Row(userId, Escape(sub.pushUri), Escape(sub.publicKey), EscapeOption(sub.auth))
  }

  /** A subscription as `get_subscriptions` reads it back: no unescaping. */
  function Read(row: Row): Subscription {
    Subscription(row.pushUri, row.publicKey, row.auth)
  }

  predicate HasUri(rows: seq<Row>, uri: string) {
    exists i :: 0 <= i < |rows| && rows[i].pushUri == uri
  }

  /** The table's constraint: `push_uri` is unique. */
  predicate UniqueUris(rows: seq<Row>) {
    forall i, j :: 0 <= i < j < |rows| ==> rows[i].pushUri != rows[j].pushUri
  }

  /** The table after `INSERT`: refused when the `push_uri` is already
      stored, otherwise one more row at the end; the constraint is kept. */
  function Inserted(rows: seq<Row>, userId: int, sub: Subscription): (r: Result<seq<Row>, DbError>)
    ensures r.Err? <==> HasUri(rows, Escape(sub.pushUri))
    ensures r.Ok? ==> r.value == rows + [StoredRow(userId, sub)]
    ensures r.Ok? && UniqueUris(rows) ==> UniqueUris(r.value)
  {
    if HasUri(rows, Escape(sub.pushUri)) then Err(UniqueConstraintFailed)
    else Ok(rows + [StoredRow(userId, sub)])
  }

  /** The rows left after deleting those with `push_uri == uri`. */
  function Without(rows: seq<Row>, uri: string): (r: seq<Row>)
    ensures |r| <= |rows|
    ensures forall row :: row in r <==> row in rows && row.pushUri != uri
  {
    if |rows| == 0 then []
    else
      var init := Without(rows[..|rows| - 1], uri);
      var last := rows[|rows| - 1];
      assert rows == rows[..|rows| - 1] + [last];
      if last.pushUri == uri then init else init + [last]
  }

  /** The rows a query selects, in table order: those of `user`, or all
      rows when no user is given, each read back as a subscription. */
  function Selected(rows: seq<Row>, user: Option<int>): (r: seq<Subscription>)
    ensures |r| <= |rows|
    ensures forall row :: row in rows && (user.None? || row.userId == user.value) ==> Read(row) in r
    ensures forall s :: s in r ==> exists row :: row in rows && (user.None? || row.userId == user.value) && Read(row) == s
  {
    if |rows| == 0 then []
    else
      var init := Selected(rows[..|rows| - 1], user);
      var last := rows[|rows| - 1];
      assert rows == rows[..|rows| - 1] + [last];
      if user.None? || last.userId == user.value then init + [Read(last)] else init
  }

  /** Without a user filter every row is read back. */
  lemma {:induction false} SelectAll(rows: seq<Row>)
    ensures |Selected(rows, None)| == |rows|
  {
    if |rows| > 0 {
      SelectAll(rows[..|rows| - 1]);
    }
  }

  /** Deleting preserves the constraint. */
  lemma {:induction false} WithoutKeepsUnique(rows: seq<Row>, uri: string)
    requires UniqueUris(rows)
    ensures UniqueUris(Without(rows, uri))
  {
    if |rows| > 0 {
      var init := rows[..|rows| - 1];
      WithoutKeepsUnique(init, uri);
      var last := rows[|rows| - 1];
      assert last in rows;
      forall row | row in Without(init, uri) ensures row.pushUri != last.pushUri {
        var k :| 0 <= k < |init| && init[k] == row;
        assert rows[k] == row;
      }
    }
  }

  /** A text `escape` leaves alone. */
  predicate Plain(s: string) {
    forall i :: 0 <= i < |s| ==> s[i] != '\''
  }

  /** A subscription none of whose values holds a quote. */
  predicate PlainSubscription(sub: Subscription) {
    Plain(sub.pushUri) && Plain(sub.publicKey) && (sub.auth.Some? ==> Plain(sub.auth.value))
  }

  /** Such a subscription is stored, and so read back, as it is. */
  lemma PlainReadsBack(userId: int, sub: Subscription)
    requires PlainSubscription(sub)
    ensures Read(StoredRow(userId, sub)) == sub
  {
    EscapePlain(sub.pushUri);
    EscapePlain(sub.publicKey);
    if sub.auth.Some? {
      EscapePlain(sub.auth.value);
    }
  }

  /** Values are read back as stored, not unescaped: a `push_uri` with a
      quote comes back longer than it went in. */
  lemma QuotedReadsBackEscaped(userId: int, sub: Subscription)
    requires Quotes(sub.pushUri) > 0
    ensures Read(StoredRow(userId, sub)).pushUri != sub.pushUri
    ensures Unescape(Read(StoredRow(userId, sub)).pushUri) == sub.pushUri
  {
    UnescapeEscape(sub.pushUri);
  }

  /** Selecting from a table with one more row. */
  lemma SelectedSnoc(rows: seq<Row>, row: Row, user: Option<int>)
    ensures Selected(rows + [row], user) ==
      Selected(rows, user) + (if user.None? || row.userId == user.value then [Read(row)] else [])
  {
    assert (rows + [row])[..|rows|] == rows;
  }

  /** After a successful `subscribe(u, sub)` the user's subscriptions end
      with `sub` as stored; a subscription without quotes is listed as it
      was given. */
  lemma SubscribeThenListed(rows: seq<Row>, userId: int, sub: Subscription)
    requires Inserted(rows, userId, sub).Ok?
    ensures var listed := Selected(Inserted(rows, userId, sub).value, Some(userId));
      |listed| == |Selected(rows, Some(userId))| + 1 && listed[|listed| - 1] == Read(StoredRow(userId, sub))
    ensures PlainSubscription(sub) ==> sub in Selected(Inserted(rows, userId, sub).value, Some(userId))
  {
    SelectedSnoc(rows, StoredRow(userId, sub), Some(userId));
    if PlainSubscription(sub) {
      PlainReadsBack(userId, sub);
    }
  }

  /** A second `subscribe` with the same `push_uri` fails, whoever asks. */
  lemma SubscribeTwiceFails(rows: seq<Row>, userId: int, sub: Subscription, otherUser: int, other: Subscription)
    requires Inserted(rows, userId, sub).Ok?
    requires other.pushUri == sub.pushUri
    ensures Inserted(Inserted(rows, userId, sub).value, otherUser, other) == Err(UniqueConstraintFailed)
  {
    var t := Inserted(rows, userId, sub).value;
    assert t[|rows|].pushUri == Escape(other.pushUri);
  }

  /** After `unsubscribe(_, uri)` no user has a subscription stored under
      `uri`, and the rows of every other `push_uri` are all kept, in order. */
  lemma {:induction false} UnsubscribeThenGone(rows: seq<Row>, uri: string, user: Option<int>)
    ensures forall s :: s in Selected(Without(rows, Escape(uri)), user) ==> s.pushUri != Escape(uri)
    ensures |Without(rows, Escape(uri))| == |rows| - UriCount(rows, Escape(uri))
  {
    if |rows| > 0 {
      UnsubscribeThenGone(rows[..|rows| - 1], uri, user);
    }
  }

  /** The number of rows stored under `uri`. */
  function UriCount(rows: seq<Row>, uri: string): (n: nat)
    ensures n <= |rows|
    ensures n == 0 <==> !HasUri(rows, uri)
  {
    if |rows| == 0 then 0
    else
      var init := rows[..|rows| - 1];
      assert HasUri(rows, uri) <==> HasUri(init, uri) || rows[|rows| - 1].pushUri == uri by {
        if HasUri(init, uri) {
          var k :| 0 <= k < |init| && init[k].pushUri == uri;
          assert rows[k].pushUri == uri;
        }
      }
      UriCount(init, uri) + (if rows[|rows| - 1].pushUri == uri then 1 else 0)
  }

  /** Under the constraint, `unsubscribe` deletes at most one row. */
  lemma {:induction false} UniqueUriCount(rows: seq<Row>, uri: string)
    requires UniqueUris(rows)
    ensures UriCount(rows, uri) <= 1
  {
    if |rows| > 0 {
      var init := rows[..|rows| - 1];
      UniqueUriCount(init, uri);
      if rows[|rows| - 1].pushUri == uri && UriCount(init, uri) == 1 {
        assert false;
      }
    }
  }

  /** A sequence of `subscribe` calls, each with its user, stopping at the
      first failure. */
  function SubscribedAll(rows: seq<Row>, calls: seq<(int, Subscription)>): Result<seq<Row>, DbError> {
    if |calls| == 0 then Ok(rows)
    else
      var last := calls[|calls| - 1];
      match SubscribedAll(rows, calls[..|calls| - 1])
      case Err(e) => Err(e)
      case Ok(t) => Inserted(t, last.0, last.1)
  }

  /** The number of calls made for `user`. */
  function CallsOf(calls: seq<(int, Subscription)>, user: int): (n: nat)
    ensures n <= |calls|
  {
    if |calls| == 0 then 0
    else CallsOf(calls[..|calls| - 1], user) + (if calls[|calls| - 1].0 == user then 1 else 0)
  }

  /** The rows the calls store when none of them fails, in call order. */
  function StoredRows(calls: seq<(int, Subscription)>): (t: seq<Row>)
    ensures |t| == |calls|
  {
    if |calls| == 0 then []
    else
      var n := |calls| - 1;
      StoredRows(calls[..n]) + [StoredRow(calls[n].0, calls[n].1)]
  }

  /** The `i`-th stored row is the one the `i`-th call asked for. */
  lemma {:induction false} StoredRowAt(calls: seq<(int, Subscription)>, i: nat)
    requires i < |calls|
    ensures StoredRows(calls)[i] == StoredRow(calls[i].0, calls[i].1)
  {
    var n := |calls| - 1;
    if i < n {
      StoredRowAt(calls[..n], i);
    }
  }

  /** Subscribing distinct `push_uri`s to an empty table succeeds each time
      and stores one row per call, in call order. */
  lemma {:induction false} SubscribeDistinct(calls: seq<(int, Subscription)>)
    requires forall i, j :: 0 <= i < j < |calls| ==> calls[i].1.pushUri != calls[j].1.pushUri
    ensures SubscribedAll([], calls) == Ok(StoredRows(calls))
  {
    if |calls| > 0 {
      var n := |calls| - 1;
      var init := calls[..n];
      SubscribeDistinct(init);
      var t := StoredRows(init);
      var last := calls[n];
      if HasUri(t, Escape(last.1.pushUri)) {
        var k :| 0 <= k < |t| && t[k].pushUri == Escape(last.1.pushUri);
        StoredRowAt(init, k);
        EscapeInjective(init[k].1.pushUri, last.1.pushUri);
        assert false;
      }
    }
  }

  /** Each user then has as many subscriptions as calls were made for
      them. */
  lemma {:induction false} StoredRowsSelected(calls: seq<(int, Subscription)>, user: int)
    ensures |Selected(StoredRows(calls), Some(user))| == CallsOf(calls, user)
  {
    if |calls| > 0 {
      var n := |calls| - 1;
      StoredRowsSelected(calls[..n], user);
      var row := StoredRow(calls[n].0, calls[n].1);
      var t := StoredRows(calls[..n]);
      assert StoredRows(calls) == t + [row];
      assert CallsOf(calls, user) == CallsOf(calls[..n], user) + (if row.userId == user then 1 else 0);
      SelectedSnoc(t, row, Some(user));
    }
  }

  /** The multi-user scenario: four subscriptions with distinct `push_uri`s,
      two for user 1 and one each for users 2 and 3, give 2, 1 and 1
      subscriptions per user and 4 in all. */
  lemma MultipleUsers(a: Subscription, b: Subscription, c: Subscription, d: Subscription)
    requires a.pushUri != b.pushUri && a.pushUri != c.pushUri && a.pushUri != d.pushUri
    requires b.pushUri != c.pushUri && b.pushUri != d.pushUri && c.pushUri != d.pushUri
    ensures var r := SubscribedAll([], [(1, a), (1, b), (2, c), (3, d)]);
      && r.Ok?
      && |Selected(r.value, Some(1))| == 2
      && |Selected(r.value, Some(2))| == 1
      && |Selected(r.value, Some(3))| == 1
      && |Selected(r.value, None)| == 4
  {
    var calls: seq<(int, Subscription)> := [(1, a), (1, b), (2, c), (3, d)];
    assert calls[..3] == [(1, a), (1, b), (2, c)];
    assert calls[..3][..2] == [(1, a), (1, b)];
    assert calls[..3][..2][..1] == [(1, a)];
    assert calls[..3][..2][..1][..0] == [];
    forall user ensures CallsOf(calls, user) == CallsOf(calls[..3], user) + (if user == 3 then 1 else 0) {
    }
    forall user ensures CallsOf(calls[..3], user) == CallsOf(calls[..3][..2], user) + (if user == 2 then 1 else 0) {
    }
    forall user ensures CallsOf(calls[..3][..2], user) == (if user == 1 then 2 else 0) {
    }
    assert forall i, j :: 0 <= i < j < |calls| ==> calls[i].1.pushUri != calls[j].1.pushUri by {
      assert calls[0].1 == a && calls[1].1 == b && calls[2].1 == c && calls[3].1 == d;
    }
    SubscribeDistinct(calls);
    SelectAll(StoredRows(calls));
    StoredRowsSelected(calls, 1);
    StoredRowsSelected(calls, 2);
    StoredRowsSelected(calls, 3);
  }

  /** The single-user scenario: a subscription without quotes is listed as
      given after `subscribe`, and the user has none again after
      `unsubscribe`. */
  lemma SubscribeUnsubscribe(userId: int, sub: Subscription)
    requires PlainSubscription(sub)
    ensures Selected([], Some(userId)) == []
    ensures Inserted([], userId, sub).Ok?
    ensures Selected(Inserted([], userId, sub).value, Some(userId)) == [sub]
    ensures Selected(Without(Inserted([], userId, sub).value, Escape(sub.pushUri)), Some(userId)) == []
  {
    PlainReadsBack(userId, sub);
    SelectedSnoc([], StoredRow(userId, sub), Some(userId));
    var t := [StoredRow(userId, sub)];
    assert t[..0] == [];
  }

  class WebPushDb {
    var rows: seq<Row>

    /** `new`: the table, empty when first created. */
    constructor ()
      ensures rows == []
    {
      rows := [];
    }

    /** `subscribe`: the escaped values are inserted as a new row, unless
      their `push_uri` is already stored; the result counts the rows
      changed. */
    method Subscribe(userId: int, sub: Subscription) returns (r: Result<int, DbError>)
      modifies this
      ensures Inserted(old(rows), userId, sub).Err? ==> r == Err(UniqueConstraintFailed) && rows == old(rows)
      ensures Inserted(old(rows), userId, sub).Ok? ==> r == Ok(1) && rows == Inserted(old(rows), userId, sub).value
      ensures UniqueUris(old(rows)) ==> UniqueUris(rows)
    {
      if HasUri(rows, Escape(sub.pushUri)) {
        r := Err(UniqueConstraintFailed);
      } else {
        rows := rows + [StoredRow(userId, sub)];
        r := Ok(1);
      }
    }

    /** `unsubscribe`: every row with the escaped `push_uri` is deleted,
      whoever it belongs to; the result counts the rows deleted. */
    method Unsubscribe(userId: int, pushUri: string) returns (r: Result<int, DbError>)
      modifies this
      ensures rows == Without(old(rows), Escape(pushUri))
      ensures r == Ok(|old(rows)| - |rows|)
      ensures UniqueUris(old(rows)) ==> UniqueUris(rows)
    {
      if UniqueUris(rows) {
        WithoutKeepsUnique(rows, Escape(pushUri));
      }
      var before := |rows|;
      rows := Without(rows, Escape(pushUri));
      r := Ok(before - |rows|);
    }

    /** `get_subscriptions`: the selected rows, pushed one by one in table
      order, read back as stored. */
    method GetSubscriptions(user: Option<int>) returns (r: Result<seq<Subscription>, DbError>)
      ensures r == Ok(Selected(rows, user))
    {
      var subs: seq<Subscription> := [];
      var i := 0;
      while i < |rows|
        invariant i <= |rows|
        invariant subs == Selected(rows[..i], user)
      {
        assert rows[..i + 1][..i] == rows[..i];
        if user.None? || rows[i].userId == user.value {
          subs := subs + [Read(rows[i])];
        }
        i := i + 1;
      }
      assert rows[..i] == rows;
      r := Ok(subs);
    }
  }
}
