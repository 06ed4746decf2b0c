/**
 * Keyset paging: following the (slot, signature) cursor over a fixed table with unique keys yields the
 * matching rows in order, each once, and stops.
 */
module Pager {
  import opened Options

  datatype Tx = Tx(slot: nat, signature: string, time: int, sender: string, receiver: string)

  // ---- The order of the rows ----

  predicate TextBefore(a: string, b: string) {
    b != [] && (a == [] || a[0] < b[0] || (a[0] == b[0] && TextBefore(a[1..], b[1..])))
  }

  lemma {:induction false} TextIrreflexive(a: string)
    ensures !TextBefore(a, a)
  {
    if a != [] {
      TextIrreflexive(a[1..]);
    }
  }

  lemma {:induction false} TextTotal(a: string, b: string)
    ensures a == b || TextBefore(a, b) || TextBefore(b, a)
    ensures !(TextBefore(a, b) && TextBefore(b, a))
  {
    if a != [] && b != [] {
      TextTotal(a[1..], b[1..]);
      if a[1..] == b[1..] && a[0] == b[0] {
        assert a == [a[0]] + a[1..] && b == [b[0]] + b[1..];
      }
    }
  }

  lemma {:induction false} TextTransitive(a: string, b: string, c: string)
    requires TextBefore(a, b) && TextBefore(b, c)
    ensures TextBefore(a, c)
  {
    if a != [] && a[0] == b[0] && b[0] == c[0] {
      TextTransitive(a[1..], b[1..], c[1..]);
    }
  }

  /** By slot, then by signature; downwards for a wallet's history. */
  predicate KeyBefore(down: bool, slot: nat, signature: string, slot': nat, signature': string) {
    if down then slot' < slot || (slot' == slot && TextBefore(signature', signature))
    else slot < slot' || (slot == slot' && TextBefore(signature, signature'))
  }

  predicate Before(down: bool, a: Tx, b: Tx) {
    KeyBefore(down, a.slot, a.signature, b.slot, b.signature)
  }

  predicate SameKey(a: Tx, b: Tx) {
    a.slot == b.slot && a.signature == b.signature
  }

  /** The order of texts: at the first place where they differ, or the shorter one first. */
  lemma {:induction false} TextOrder(a: string, b: string, k: nat)
    requires k <= |a| && k <= |b| && a[..k] == b[..k]
    requires k == |a| || k == |b| || a[k] != b[k]
    ensures TextBefore(a, b) <==> k < |b| && (k == |a| || a[k] < b[k])
  {
    if k > 0 {
      assert a[0] == a[..k][0] == b[..k][0] == b[0];
      assert a[1..][..k - 1] == a[..k][1..] == b[..k][1..] == b[1..][..k - 1];
      TextOrder(a[1..], b[1..], k - 1);
    }
  }

  lemma BeforeTotal(down: bool, a: Tx, b: Tx)
    ensures !Before(down, a, a)
    ensures SameKey(a, b) || Before(down, a, b) || Before(down, b, a)
    ensures !(Before(down, a, b) && Before(down, b, a))
    ensures SameKey(a, b) ==> !Before(down, a, b)
  {
    TextIrreflexive(a.signature);
    TextTotal(a.signature, b.signature);
  }

  lemma BeforeTransitive(down: bool, a: Tx, b: Tx, c: Tx)
    requires Before(down, a, b) && Before(down, b, c)
    ensures Before(down, a, c)
  {
    if a.slot == b.slot == c.slot {
      if down {
        TextTransitive(c.signature, b.signature, a.signature);
      } else {
        TextTransitive(a.signature, b.signature, c.signature);
      }
    }
  }

  // ---- The query ----

  datatype Where = TimeRange(from: int, to: int) | Wallet(addr: string)

  datatype Cursor = Cursor(slot: nat, signature: string)

  predicate Matches(w: Where, t: Tx) {
    match w
    case TimeRange(from, to) => from <= t.time < to
    case Wallet(addr) => t.sender == addr || t.receiver == addr
  }

  predicate Past(down: bool, cursor: Option<Cursor>, t: Tx) {
    cursor.None? || KeyBefore(down, cursor.value.slot, cursor.value.signature, t.slot, t.signature)
  }

  function Select(down: bool, w: Where, cursor: Option<Cursor>, rows: seq<Tx>): seq<Tx> {
    if rows == [] then []
    else
      (if Matches(w, rows[0]) && Past(down, cursor, rows[0]) then [rows[0]] else [])
      + Select(down, w, cursor, rows[1..])
  }

  function Insert(down: bool, t: Tx, ts: seq<Tx>): seq<Tx> {
    if ts == [] || Before(down, t, ts[0]) then [t] + ts else [ts[0]] + Insert(down, t, ts[1..])
  }

  function Sorted(down: bool, ts: seq<Tx>): seq<Tx> {
    if ts == [] then [] else Insert(down, ts[0], Sorted(down, ts[1..]))
  }

  function Take(ts: seq<Tx>, limit: nat): seq<Tx> {
    if |ts| <= limit then ts else ts[..limit]
  }

  /** What the database answers: matching rows past the cursor, ordered, at most limit of them. */
  function Query(down: bool, w: Where, cursor: Option<Cursor>, limit: nat, rows: seq<Tx>): seq<Tx> {
    Take(Sorted(down, Select(down, w, cursor, rows)), limit)
  }

  predicate UniqueKeys(rows: seq<Tx>) {
    forall i, j :: 0 <= i < j < |rows| ==> !SameKey(rows[i], rows[j])
  }

  ghost predicate Ordered(down: bool, ts: seq<Tx>) {
    forall i, j :: 0 <= i < j < |ts| ==> Before(down, ts[i], ts[j])
  }

  lemma {:induction false} SelectMembers(down: bool, w: Where, cursor: Option<Cursor>, rows: seq<Tx>, t: Tx)
    ensures t in Select(down, w, cursor, rows) <==> t in rows && Matches(w, t) && Past(down, cursor, t)
  {
    if rows != [] {
      SelectMembers(down, w, cursor, rows[1..], t);
      assert t in rows <==> t == rows[0] || t in rows[1..];
    }
  }

  lemma {:induction false} SelectUnique(down: bool, w: Where, cursor: Option<Cursor>, rows: seq<Tx>)
    requires UniqueKeys(rows)
    ensures UniqueKeys(Select(down, w, cursor, rows))
  {
    if rows != [] {
      SelectUnique(down, w, cursor, rows[1..]);
      var rest := Select(down, w, cursor, rows[1..]);
      forall i | 0 <= i < |rest|
        ensures !SameKey(rows[0], rest[i])
      {
        SelectMembers(down, w, cursor, rows[1..], rest[i]);
        assert rest[i] in rows[1..];
        var j :| 0 <= j < |rows[1..]| && rows[1..][j] == rest[i];
        assert rows[j + 1] == rest[i];
      }
    }
  }

  lemma {:induction false} InsertMembers(down: bool, t: Tx, ts: seq<Tx>, x: Tx)
    ensures x in Insert(down, t, ts) <==> x == t || x in ts
  {
    if ts != [] {
      InsertMembers(down, t, ts[1..], x);
      assert ts == [ts[0]] + ts[1..];
    }
  }

  lemma {:induction false} InsertOrdered(down: bool, t: Tx, ts: seq<Tx>)
    requires Ordered(down, ts) && forall i :: 0 <= i < |ts| ==> !SameKey(t, ts[i])
    ensures Ordered(down, Insert(down, t, ts))
  {
    if ts != [] {
      BeforeTotal(down, t, ts[0]);
      if Before(down, t, ts[0]) {
        forall i | 0 < i < |ts|
          ensures Before(down, t, ts[i])
        {
          BeforeTransitive(down, t, ts[0], ts[i]);
        }
      } else {
        var r := Insert(down, t, ts[1..]);
        InsertOrdered(down, t, ts[1..]);
        forall i | 0 <= i < |r|
          ensures Before(down, ts[0], r[i])
        {
          InsertMembers(down, t, ts[1..], r[i]);
          assert r[i] in r;
        }
      }
    }
  }

  lemma {:induction false} SortedMembers(down: bool, ts: seq<Tx>, x: Tx)
    ensures x in Sorted(down, ts) <==> x in ts
  {
    if ts != [] {
      SortedMembers(down, ts[1..], x);
      InsertMembers(down, ts[0], Sorted(down, ts[1..]), x);
      assert ts == [ts[0]] + ts[1..];
    }
  }

  lemma {:induction false} SortedIsOrdered(down: bool, ts: seq<Tx>)
    requires UniqueKeys(ts)
    ensures Ordered(down, Sorted(down, ts))
  {
    if ts != [] {
      SortedIsOrdered(down, ts[1..]);
      var r := Sorted(down, ts[1..]);
      forall i | 0 <= i < |r|
        ensures !SameKey(ts[0], r[i])
      {
        assert r[i] in r;
        SortedMembers(down, ts[1..], r[i]);
        var j :| 0 <= j < |ts[1..]| && ts[1..][j] == r[i];
        assert ts[j + 1] == r[i];
      }
      InsertOrdered(down, ts[0], r);
    }
  }

  /** A set of rows has one ordered listing. */
  lemma {:induction false} OrderedIsUnique(down: bool, xs: seq<Tx>, ys: seq<Tx>)
    requires Ordered(down, xs) && Ordered(down, ys) && forall t :: t in xs <==> t in ys
    ensures xs == ys
  {
    assert xs != [] ==> xs[0] in xs;
    assert ys != [] ==> ys[0] in ys;
    if xs != [] {
      var j :| 0 <= j < |ys| && ys[j] == xs[0];
      var i :| 0 <= i < |xs| && xs[i] == ys[0];
      if i > 0 && j > 0 {
        BeforeTotal(down, xs[0], ys[0]);
        assert false;
      }
      BeforeTotal(down, xs[0], xs[0]);
      assert xs[0] == ys[0];
      forall t
        ensures t in xs[1..] <==> t in ys[1..]
      {
        TailMembers(down, xs, t);
        TailMembers(down, ys, t);
      }
      OrderedIsUnique(down, xs[1..], ys[1..]);
      assert xs == [xs[0]] + xs[1..] && ys == [ys[0]] + ys[1..];
    }
  }

  lemma TailMembers(down: bool, xs: seq<Tx>, t: Tx)
    requires Ordered(down, xs) && xs != []
    ensures t in xs[1..] <==> t in xs && t != xs[0]
  {
    BeforeTotal(down, xs[0], xs[0]);
    assert xs == [xs[0]] + xs[1..];
    if t in xs[1..] {
      var j :| 0 <= j < |xs[1..]| && xs[1..][j] == t;
      assert xs[j + 1] == t && Before(down, xs[0], xs[j + 1]);
    }
  }

  /** The matching rows of the table in order: what paging is to yield. */
  function Listing(down: bool, w: Where, rows: seq<Tx>): seq<Tx> {
    Sorted(down, Select(down, w, None, rows))
  }

  /** The transactions of a time range: from its start up to, not including, its end, by slot and signature. */
  lemma TimeListing(from: int, to: int, rows: seq<Tx>)
    requires UniqueKeys(rows)
    ensures var all := Listing(false, TimeRange(from, to), rows);
            && (forall t :: t in all <==> t in rows && from <= t.time < to)
            && forall i, j :: 0 <= i < j < |all| ==>
                 all[i].slot < all[j].slot
                 || (all[i].slot == all[j].slot && TextBefore(all[i].signature, all[j].signature))
  {
    hide Listing;
    ListingIsOrdered(false, TimeRange(from, to), rows);
  }

  /** A wallet's transactions: those it sent and those it received, the latest slot first. */
  lemma WalletListing(addr: string, rows: seq<Tx>)
    requires UniqueKeys(rows)
    ensures var all := Listing(true, Wallet(addr), rows);
            && (forall t :: t in all <==> t in rows && (t.sender == addr || t.receiver == addr))
            && forall i, j :: 0 <= i < j < |all| ==>
                 all[i].slot > all[j].slot
                 || (all[i].slot == all[j].slot && TextBefore(all[j].signature, all[i].signature))
  {
    hide Listing;
    ListingIsOrdered(true, Wallet(addr), rows);
  }

  lemma ListingIsOrdered(down: bool, w: Where, rows: seq<Tx>)
    requires UniqueKeys(rows)
    ensures Ordered(down, Listing(down, w, rows))
    ensures forall t :: t in Listing(down, w, rows) <==> t in rows && Matches(w, t)
  {
    SelectUnique(down, w, None, rows);
    SortedIsOrdered(down, Select(down, w, None, rows));
    forall t
      ensures t in Listing(down, w, rows) <==> t in rows && Matches(w, t)
    {
      SortedMembers(down, Select(down, w, None, rows), t);
      SelectMembers(down, w, None, rows, t);
    }
  }

  function CursorAt(ts: seq<Tx>, k: nat): Option<Cursor>
    requires k <= |ts|
  {
    if k == 0 then None else Some(Cursor(ts[k - 1].slot, ts[k - 1].signature))
  }

  /** Asking for what is past the k-th row answers with the rows from the k-th on. */
  lemma PageIsSlice(down: bool, w: Where, rows: seq<Tx>, k: nat)
    requires UniqueKeys(rows) && k <= |Listing(down, w, rows)|
    ensures Sorted(down, Select(down, w, CursorAt(Listing(down, w, rows), k), rows)) == Listing(down, w, rows)[k..]
  {
    var all := Listing(down, w, rows);
    var cursor := CursorAt(all, k);
    ListingIsOrdered(down, w, rows);
    SelectUnique(down, w, cursor, rows);
    var page := Sorted(down, Select(down, w, cursor, rows));
    SortedIsOrdered(down, Select(down, w, cursor, rows));
    hide Listing, Sorted, Select, KeyBefore, Matches;
    forall t
      ensures t in page <==> t in all[k..]
    {
      SortedMembers(down, Select(down, w, cursor, rows), t);
      SelectMembers(down, w, cursor, rows, t);
      PastIsBehind(down, all, k, t);
    }
    OrderedIsUnique(down, page, all[k..]);
  }

  lemma PastIsBehind(down: bool, all: seq<Tx>, k: nat, t: Tx)
    requires Ordered(down, all) && k <= |all|
    ensures t in all[k..] <==> t in all && Past(down, CursorAt(all, k), t)
  {
    if k > 0 {
      if t in all[k..] {
        var j :| 0 <= j < |all[k..]| && all[k..][j] == t;
        assert all[k + j] == t && Before(down, all[k - 1], all[k + j]);
      }
      if t in all && Past(down, CursorAt(all, k), t) {
        var j :| 0 <= j < |all| && all[j] == t;
        assert Before(down, all[k - 1], t);
        BeforeTotal(down, all[k - 1], t);
        if j < k - 1 {
          assert false;
        }
        assert j >= k && all[k..][j - k] == t;
      }
    } else {
      assert all[0..] == all;
    }
  }

  // ---- The cursor as text ----

  function DigitChar(d: nat): char
    requires d < 10
  {
    '0' + d as char
  }

  predicate IsDecimal(s: string) {
    s != [] && forall i :: 0 <= i < |s| ==> '0' <= s[i] <= '9'
  }

  function FormatUint(n: nat): (s: string)
    ensures IsDecimal(s)
  {
    if n < 10 then [DigitChar(n)] else FormatUint(n / 10) + [DigitChar(n % 10)]
  }

  /** Decimal digits that fit 64 bits. */
  function ParseUint(s: string): Option<nat> {
    if !IsDecimal(s) || DecimalValue(s) >= 0x1_0000_0000_0000_0000 then None else Some(DecimalValue(s))
  }

  function DecimalValue(s: string): nat
    requires forall i :: 0 <= i < |s| ==> '0' <= s[i] <= '9'
  {
    if s == [] then 0 else 10 * DecimalValue(s[..|s| - 1]) + (s[|s| - 1] - '0') as nat
  }

  lemma {:induction false} FormatUintValue(n: nat)
    ensures DecimalValue(FormatUint(n)) == n
  {
    var s := FormatUint(n);
    if n >= 10 {
      FormatUintValue(n / 10);
      assert s[..|s| - 1] == FormatUint(n / 10);
    } else {
      assert s[..0] == [];
    }
  }

  function FormatCursor(c: Cursor): (s: string)
    ensures s != []
  {
    FormatUint(c.slot) + ":" + c.signature
  }

  /** The position of the first colon, or -1. */
  function FirstColon(s: string): (r: int)
    ensures -1 <= r < |s|
  {
    if s == [] then -1
    else if s[0] == ':' then 0
    else if FirstColon(s[1..]) == -1 then -1
    else FirstColon(s[1..]) + 1
  }

  function ParseCursor(s: string): Option<Cursor> {
    var k := FirstColon(s);
    if k < 0 then None
    else match ParseUint(s[..k]) case None => None case Some(slot) => Some(Cursor(slot, s[k + 1..]))
  }

  lemma {:induction false} ColonAfter(a: string, b: string)
    requires ':' !in a
    ensures FirstColon(a + ":" + b) == |a|
  {
    var s := a + ":" + b;
    if a != [] {
      assert s[0] == a[0] && a[0] in a;
      assert s[1..] == a[1..] + ":" + b;
      ColonAfter(a[1..], b);
    }
  }

  /** Every cursor with a 64-bit slot is read back, colons in the signature included. */
  lemma {:induction false} ColonIsFirst(s: string)
    ensures FirstColon(s) == -1 <==> ':' !in s
    ensures FirstColon(s) >= 0 ==> s[FirstColon(s)] == ':' && ':' !in s[..FirstColon(s)]
  {
    if s != [] {
      assert s == [s[0]] + s[1..];
      ColonIsFirst(s[1..]);
      var k := FirstColon(s);
      if k > 0 {
        assert s[..k] == [s[0]] + s[1..][..k - 1];
      }
    }
  }

  /**
   * Exactly the texts that are read as a cursor: decimal digits of a number below 2^64, the first colon, and
   * the signature; every other text is an error.
   */
  lemma CursorExactly(s: string, c: Cursor)
    ensures ParseCursor(s) == Some(c) <==>
            exists d :: IsDecimal(d) && ':' !in d && DecimalValue(d) == c.slot < 0x1_0000_0000_0000_0000
                        && s == d + ":" + c.signature
  {
    ColonIsFirst(s);
    hide FirstColon, DecimalValue;
    if ParseCursor(s) == Some(c) {
      var k := FirstColon(s);
      assert s == s[..k] + ":" + s[k + 1..];
      assert IsDecimal(s[..k]) && DecimalValue(s[..k]) == c.slot;
    }
    if d :| IsDecimal(d) && ':' !in d && DecimalValue(d) == c.slot < 0x1_0000_0000_0000_0000
            && s == d + ":" + c.signature {
      ColonAfter(d, c.signature);
      assert s[..|d|] == d && s[|d| + 1..] == c.signature;
    }
  }

  /** A cursor reads slot, colon, signature. */
  lemma CursorExample()
    ensures FormatCursor(Cursor(307, "ab:c")) == "307:ab:c"
  {
    assert FormatUint(3) == "3" && FormatUint(30) == "30" && FormatUint(307) == "307";
  }

  lemma CursorSurvives(c: Cursor)
    requires c.slot < 0x1_0000_0000_0000_0000
    ensures ParseCursor(FormatCursor(c)) == Some(c)
  {
    var a := FormatUint(c.slot);
    assert ':' !in a;
    ColonAfter(a, c.signature);
    FormatUintValue(c.slot);
    var s := FormatCursor(c);
    assert s[..|a|] == a && s[|a| + 1..] == c.signature;
  }

  // ---- Pages and paging loops ----

  datatype Page = Page(rows: seq<Tx>, next: string)

  /** Only slots of 64 bits occur in the table. */
  predicate SlotsFit(rows: seq<Tx>) {
    forall t :: t in rows ==> t.slot < 0x1_0000_0000_0000_0000
  }

  /** One page; an empty cursor is the start, one that does not parse is an error. */
  method GetPage(down: bool, w: Where, limit: nat, cursor: string, rows: seq<Tx>) returns (r: Option<Page>)
    requires limit > 0
    ensures r.None? <==> cursor != [] && ParseCursor(cursor).None?
    ensures r.Some? ==>
              var after := if cursor == [] then None else ParseCursor(cursor);
              && r.value.rows == Query(down, w, after, limit, rows)
              && r.value.next
                 == (if |r.value.rows| == limit then
                       FormatCursor(Cursor(r.value.rows[limit - 1].slot, r.value.rows[limit - 1].signature))
                     else [])
  {
    var after: Option<Cursor> := None;
    if cursor != [] {
      after := ParseCursor(cursor);
      if after.None? {
        return None;
      }
    }
    var out := Query(down, w, after, limit, rows);
    var next := [];
    if |out| == limit {
      var last := out[|out| - 1];
      next := FormatCursor(Cursor(last.slot, last.signature));
    }
    r := Some(Page(out, next));
  }

  method GetByTimeRange(from: int, to: int, limit: int, cursor: string, rows: seq<Tx>) returns (r: Option<Page>)
    ensures var l := if limit <= 0 || limit > 10000 then 1000 else limit;
            && (r.None? <==> cursor != [] && ParseCursor(cursor).None?)
            && (r.Some? ==> IsPage(false, TimeRange(from, to), l, cursor, rows, r.value))
  {
    var l := if limit <= 0 || limit > 10000 then 1000 else limit;
    r := GetPage(false, TimeRange(from, to), l, cursor, rows);
  }

  method GetByWallet(addr: string, limit: int, cursor: string, rows: seq<Tx>) returns (r: Option<Page>)
    ensures var l := if limit <= 0 || limit > 500 then 50 else limit;
            && (r.None? <==> cursor != [] && ParseCursor(cursor).None?)
            && (r.Some? ==> IsPage(true, Wallet(addr), l, cursor, rows, r.value))
  {
    var l := if limit <= 0 || limit > 500 then 50 else limit;
    r := GetPage(true, Wallet(addr), l, cursor, rows);
  }

  predicate IsPage(down: bool, w: Where, limit: nat, cursor: string, rows: seq<Tx>, p: Page)
    requires limit > 0
  {
    && p.rows == Query(down, w, if cursor == [] then None else ParseCursor(cursor), limit, rows)
    && p.next == (if |p.rows| == limit then
                    FormatCursor(Cursor(p.rows[limit - 1].slot, p.rows[limit - 1].signature)) else [])
  }

  function CursorText(ts: seq<Tx>, k: nat): string
    requires k <= |ts|
  {
    if k == 0 then [] else FormatCursor(Cursor(ts[k - 1].slot, ts[k - 1].signature))
  }

  /** The page after k rows is the next slice, and its cursor says where that ends. */
  lemma NextPage(down: bool, w: Where, limit: nat, rows: seq<Tx>, k: nat, p: Page)
    requires UniqueKeys(rows) && SlotsFit(rows) && limit > 0
    requires k <= |Listing(down, w, rows)|
    requires IsPage(down, w, limit, CursorText(Listing(down, w, rows), k), rows, p)
    ensures var all := Listing(down, w, rows);
            && p.rows == Take(all[k..], limit)
            && (p.next == [] ==> k + |p.rows| == |all|)
            && (p.next != [] ==> |p.rows| == limit && p.next == CursorText(all, k + limit))
    ensures CursorText(Listing(down, w, rows), k) != [] ==> ParseCursor(CursorText(Listing(down, w, rows), k)).Some?
  {
    CursorParses(down, w, rows, k);
    PageIsSlice(down, w, rows, k);
    hide Listing, Sorted, Select, FormatCursor, ParseCursor;
  }

  lemma CursorParses(down: bool, w: Where, rows: seq<Tx>, k: nat)
    requires UniqueKeys(rows) && SlotsFit(rows) && k <= |Listing(down, w, rows)|
    ensures var c := CursorText(Listing(down, w, rows), k);
            && (c == [] <==> k == 0)
            && (if c == [] then None else ParseCursor(c)) == CursorAt(Listing(down, w, rows), k)
  {
    var all := Listing(down, w, rows);
    ListingIsOrdered(down, w, rows);
    hide Listing, FormatCursor, ParseCursor;
    if k > 0 {
      assert all[k - 1] in all;
      CursorSurvives(Cursor(all[k - 1].slot, all[k - 1].signature));
    }
  }

  const PAGE_SIZE := 5000
  const MAX_ROWS := 100000

  /** All transactions of a time range in order, or the first hundred thousand of them. */
  method FetchTransactions(from: int, to: int, rows: seq<Tx>) returns (all: seq<Tx>)
    requires UniqueKeys(rows) && SlotsFit(rows)
    ensures var listing := Listing(false, TimeRange(from, to), rows);
            all == if |listing| <= 100000 then listing else listing[..100000]
  {
    hide Listing, UniqueKeys, SlotsFit, IsPage, CursorText, ParseCursor;
    ghost var listing := Listing(false, TimeRange(from, to), rows);
    all := [];
    var cursor := [];
    var more := true;
    assert cursor == CursorText(listing, 0) by { StartOfText(listing); }
    while more
      invariant |all| <= |listing| && all == listing[..|all|]
      invariant more ==> |all| % PAGE_SIZE == 0
      invariant more ==> |all| < MAX_ROWS && cursor == CursorText(listing, |all|)
      invariant !more ==> all == Take(listing, MAX_ROWS)
      decreases more, |listing| - |all|
    {
      var page := GetByTimeRange(from, to, PAGE_SIZE, cursor, rows);
      CursorParses(false, TimeRange(from, to), rows, |all|);
      NextPage(false, TimeRange(from, to), PAGE_SIZE, rows, |all|, page.value);
      ghost var k := |all|;
      all := all + page.value.rows;
      assert all == listing[..|all|] by { SliceGrows(listing, k, page.value.rows); }
      if page.value.next == [] || |all| >= MAX_ROWS {
        more := false;
      } else {
        cursor := page.value.next;
      }
    }
  }

  lemma StartOfText(ts: seq<Tx>)
    ensures CursorText(ts, 0) == []
  {
  }

  lemma SliceGrows(ts: seq<Tx>, k: nat, page: seq<Tx>)
    requires k <= |ts| && |page| <= |ts| - k && page == ts[k..][..|page|]
    ensures ts[..k] + page == ts[..k + |page|]
  {
  }

  /** The rows of a list whose time is within bounds, both included. */
  function Within(from: int, to: int, ts: seq<Tx>): seq<Tx> {
    if ts == [] then []
    else
      var last := ts[|ts| - 1];
      Within(from, to, ts[..|ts| - 1]) + if last.time < from || last.time > to then [] else [last]
  }

  method KeepWithin(from: int, to: int, page: seq<Tx>) returns (kept: seq<Tx>)
    ensures kept == Within(from, to, page)
  {
    kept := [];
    for i := 0 to |page|
      invariant kept == Within(from, to, page[..i])
    {
      assert page[..i + 1][..i] == page[..i];
      if page[i].time < from || page[i].time > to {
        continue;
      }
      kept := kept + [page[i]];
    }
    assert page[..|page|] == page;
  }

  lemma {:induction false} WithinAppend(from: int, to: int, a: seq<Tx>, b: seq<Tx>)
    ensures Within(from, to, a + b) == Within(from, to, a) + Within(from, to, b)
  {
    if b == [] {
      assert a + b == a;
    } else {
      var k := |b| - 1;
      assert (a + b)[..|a| + k] == a + b[..k];
      WithinAppend(from, to, a, b[..k]);
    }
  }

  lemma {:induction false} WithinLength(from: int, to: int, ts: seq<Tx>)
    ensures |Within(from, to, ts)| <= |ts|
  {
    if ts != [] {
      WithinLength(from, to, ts[..|ts| - 1]);
    }
  }

  const WALLET_PAGE := 50
  const WALLET_CAP := 50000

  /**
   * A wallet's transactions within a time span, newest first. The request for pages of a thousand is
   * answered with pages of fifty; nothing is missed unless more than fifty thousand rows were found.
   */
  method FetchWallet(addr: string, from: int, to: int, rows: seq<Tx>) returns (all: seq<Tx>, seen: nat)
    requires UniqueKeys(rows) && SlotsFit(rows)
    ensures var listing := Listing(true, Wallet(addr), rows);
            && seen <= |listing| && all == Within(from, to, listing[..seen])
            && (seen < |listing| ==> 50000 < |all| <= 50050)
  {
    hide Listing, UniqueKeys, SlotsFit, IsPage, CursorText, ParseCursor, Within;
    ghost var listing := Listing(true, Wallet(addr), rows);
    all, seen := [], 0;
    var cursor := [];
    var more := true;
    assert cursor == CursorText(listing, 0) by { StartOfText(listing); }
    assert listing[..0] == [];
    assert all == Within(from, to, listing[..0]) by { NothingWithin(from, to); }
    while more
      invariant seen <= |listing| && all == Within(from, to, listing[..seen])
      invariant more ==> |all| <= WALLET_CAP && cursor == CursorText(listing, seen)
      invariant !more && seen < |listing| ==> WALLET_CAP < |all| <= WALLET_CAP + WALLET_PAGE
      decreases more, |listing| - seen
    {
      var page := GetByWallet(addr, 1000, cursor, rows);
      CursorParses(true, Wallet(addr), rows, seen);
      NextPage(true, Wallet(addr), WALLET_PAGE, rows, seen, page.value);
      var kept := KeepWithin(from, to, page.value.rows);
      WithinLength(from, to, page.value.rows);
      WithinAppend(from, to, listing[..seen], page.value.rows);
      SliceGrows(listing, seen, page.value.rows);
      all := all + kept;
      seen := seen + |page.value.rows|;
      if page.value.next == [] || |all| > WALLET_CAP {
        more := false;
      } else {
        cursor := page.value.next;
      }
    }
  }

  /** A row is kept exactly when its time is within the bounds; the order stays, as WithinAppend says. */
  lemma WithinOne(from: int, to: int, t: Tx)
    ensures Within(from, to, [t]) == if from <= t.time <= to then [t] else []
  {
    assert [t][..0] == [];
  }

  lemma NothingWithin(from: int, to: int)
    ensures Within(from, to, []) == []
  {
  }
}
