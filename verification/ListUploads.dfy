/**
 * The uploads listing: the caller's records, found by scanning the uploads
 * table for their email as owner, sorted in place newest first by the upload
 * time string.
 */
module ListUploads {
  import opened Wrappers
  import opened Cloud

  const NoItems := "No item found in dynamodb"

  /** Python's `<` on strings: lexicographic by code point, a proper prefix first. */
  predicate StrLess(a: string, b: string)
  {
    if a == [] then b != []
    else if b == [] then false
    else if a[0] != b[0] then a[0] < b[0]
    else StrLess(a[1..], b[1..])
  }

  lemma {:induction false} StrLessIrreflexive(a: string)
    ensures !StrLess(a, a)
  {
    if a != [] {
      StrLessIrreflexive(a[1..]);
    }
  }

  lemma {:induction false} StrLessTransitive(a: string, b: string, c: string)
    requires StrLess(a, b) && StrLess(b, c)
    ensures StrLess(a, c)
  {
    if a != [] && a[0] == b[0] && b[0] == c[0] {
      StrLessTransitive(a[1..], b[1..], c[1..]);
    }
  }

  lemma {:induction false} StrLessTotal(a: string, b: string)
    requires a != b
    ensures StrLess(a, b) || StrLess(b, a)
  {
    if a != [] && b != [] && a[0] == b[0] {
      assert a == [a[0]] + a[1..] && b == [b[0]] + b[1..];
      StrLessTotal(a[1..], b[1..]);
    }
  }

  /** "Not after" is transitive: the order a sorted listing is in. */
  lemma NotLessTransitive(a: string, b: string, c: string)
    requires !StrLess(a, b) && !StrLess(b, c)
    ensures !StrLess(a, c)
  {
    if StrLess(a, c) {
      if a != b {
        StrLessTotal(a, b);
        StrLessTransitive(b, a, c);
      }
    }
  }

  /** The scan's filter: the record's owner is the caller. */
  predicate Owns(item: Item, email: string)
  {
    FileOwner in item && item[FileOwner] == email
  }

  /** The records the scan returns, in the order it visits the keys `order`. */
  function Scan(table: map<string, Item>, order: seq<string>, email: string): (items: seq<Item>)
    ensures |items| <= |order|
  {
    if order == [] then []
    else
      var rest := Scan(table, order[..|order| - 1], email);
      var k := order[|order| - 1];
      if k in table && Owns(table[k], email) then rest + [table[k]] else rest
  }

  /** The scan visits every key of the table exactly once, and no other key. */
  predicate ScanOrder(table: map<string, Item>, order: seq<string>)
  {
    (forall k :: k in table ==> k in order) &&
    (forall i :: 0 <= i < |order| ==> order[i] in table) &&
    (forall i, j :: 0 <= i < j < |order| ==> order[i] != order[j])
  }

  /** The keys of the caller's records among the keys `order`. */
  ghost function OwnedKeys(table: map<string, Item>, order: seq<string>, email: string): set<string>
  {
    set k | k in order && k in table && Owns(table[k], email)
  }

  /** A scan that visits no key twice returns one record per key of the caller's records. */
  lemma {:induction false} ScanCount(table: map<string, Item>, order: seq<string>, email: string)
    requires forall i, j :: 0 <= i < j < |order| ==> order[i] != order[j]
    ensures |Scan(table, order, email)| == |OwnedKeys(table, order, email)|
  {
    if order == [] {
      assert OwnedKeys(table, order, email) == {};
    } else {
      var init := order[..|order| - 1];
      var k := order[|order| - 1];
      ScanCount(table, init, email);
      assert order == init + [k];
      forall i | 0 <= i < |init|
        ensures init[i] != k
      {
        assert init[i] == order[i];
      }
      if k in table && Owns(table[k], email) {
        assert OwnedKeys(table, order, email) == OwnedKeys(table, init, email) + {k};
      } else {
        assert OwnedKeys(table, order, email) == OwnedKeys(table, init, email);
      }
    }
  }

  /**
   * Every scanned record is a record of the table owned by the caller, and
   * every record of the caller is scanned.
   */
  lemma {:induction false} ScanSelects(table: map<string, Item>, order: seq<string>, email: string)
    requires ScanOrder(table, order)
    ensures forall item :: item in Scan(table, order, email) <==> item in table.Values && Owns(item, email)
  {
    ScanCovers(table, order, email);
  }

  lemma {:induction false} ScanCovers(table: map<string, Item>, order: seq<string>, email: string)
    ensures forall item :: item in Scan(table, order, email) ==> item in table.Values && Owns(item, email)
    ensures forall k :: k in order && k in table && Owns(table[k], email) ==> table[k] in Scan(table, order, email)
  {
    if order != [] {
      var init := order[..|order| - 1];
      ScanCovers(table, init, email);
      forall k | k in order && k in table && Owns(table[k], email)
        ensures table[k] in Scan(table, order, email)
      {
        if k != order[|order| - 1] {
          assert k in init by {
            var i :| 0 <= i < |order| && order[i] == k;
            assert init[i] == k;
          }
        }
      }
    }
  }

  /** Every record has an upload time, so the sort key can be computed for all of them. */
  predicate Timestamped(items: seq<Item>)
  {
    forall item :: item in items ==> FileTimestamp in item
  }

  /** The sort key. */
  function Stamp(item: Item): string
    requires FileTimestamp in item
  {
    item[FileTimestamp]
  }

  /** Newest first: no record has an earlier upload time string than one after it. */
  predicate Descending(s: seq<Item>)
    requires Timestamped(s)
  {
    forall i, j :: 0 <= i < j < |s| ==> !StrLess(Stamp(s[i]), Stamp(s[j]))
  }

  /**
   * Insert `x` into a listing after every record whose time is not earlier:
   * the step of a stable sort in descending order.
   */
  function InsertDesc(s: seq<Item>, x: Item): (r: seq<Item>)
    requires Timestamped(s) && FileTimestamp in x
    ensures |r| == |s| + 1
    ensures multiset(r) == multiset(s) + multiset{x}
  {
    if s == [] then [x]
    else if StrLess(Stamp(s[|s| - 1]), Stamp(x)) then
      assert s == s[..|s| - 1] + [s[|s| - 1]];
      InsertDesc(s[..|s| - 1], x) + [s[|s| - 1]]
    else s + [x]
  }

  lemma TimestampedOfMultiset(s: seq<Item>, t: seq<Item>)
    requires Timestamped(s) && multiset(t) == multiset(s)
    ensures Timestamped(t)
  {
    forall item | item in t
      ensures FileTimestamp in item
    {
      assert item in multiset(t);
    }
  }

  /** Python's stable `sort(key=file_timestamp, reverse=True)`: records newest first, ties in their original order. */
  function SortDesc(xs: seq<Item>): (r: seq<Item>)
    requires Timestamped(xs)
    ensures |r| == |xs| && multiset(r) == multiset(xs) && Timestamped(r)
  {
    if xs == [] then []
    else
      var sorted := SortDesc(xs[..|xs| - 1]);
      assert xs == xs[..|xs| - 1] + [xs[|xs| - 1]];
      var r := InsertDesc(sorted, xs[|xs| - 1]);
      TimestampedOfMultiset(xs, r);
      r
  }

  lemma {:induction false} InsertDescDescending(s: seq<Item>, x: Item)
    requires Timestamped(s) && FileTimestamp in x && Descending(s)
    ensures Timestamped(InsertDesc(s, x)) && Descending(InsertDesc(s, x))
  {
    var r := InsertDesc(s, x);
    TimestampedOfMultiset(s + [x], r);
    if s != [] {
      var init, last := s[..|s| - 1], s[|s| - 1];
      if StrLess(Stamp(last), Stamp(x)) {
        assert Timestamped(init);
        InsertDescDescending(init, x);
        var head := InsertDesc(init, x);
        forall i | 0 <= i < |head|
          ensures !StrLess(Stamp(head[i]), Stamp(last))
        {
          assert head[i] in multiset(init) + multiset{x};
          if head[i] == x {
            if StrLess(Stamp(x), Stamp(last)) {
              StrLessTransitive(Stamp(x), Stamp(last), Stamp(x));
              StrLessIrreflexive(Stamp(x));
            }
          } else {
            assert head[i] in init;
          }
        }
      } else {
        forall i | 0 <= i < |s|
          ensures !StrLess(Stamp(s[i]), Stamp(x))
        {
          if i < |s| - 1 {
            NotLessTransitive(Stamp(s[i]), Stamp(last), Stamp(x));
          }
        }
      }
    }
  }

  /** The sorted listing is newest first. */
  lemma {:induction false} SortDescDescending(xs: seq<Item>)
    requires Timestamped(xs)
    ensures Descending(SortDesc(xs))
  {
    if xs != [] {
      var init := xs[..|xs| - 1];
      assert xs == init + [xs[|xs| - 1]];
      SortDescDescending(init);
      InsertDescDescending(SortDesc(init), xs[|xs| - 1]);
    }
  }

  /** The records whose upload time is `t`, in order. */
  function WithStamp(s: seq<Item>, t: string): seq<Item>
    requires Timestamped(s)
  {
    if s == [] then []
    else
      assert s == s[..|s| - 1] + [s[|s| - 1]];
      WithStamp(s[..|s| - 1], t) + if Stamp(s[|s| - 1]) == t then [s[|s| - 1]] else []
  }

  lemma {:induction false} WithStampConcat(s: seq<Item>, u: seq<Item>, t: string)
    requires Timestamped(s) && Timestamped(u)
    ensures Timestamped(s + u) && WithStamp(s + u, t) == WithStamp(s, t) + WithStamp(u, t)
    decreases |u|
  {
    if u == [] {
      assert s + u == s;
    } else {
      var init := u[..|u| - 1];
      assert Timestamped(init);
      assert (s + u)[..|s + u| - 1] == s + init;
      WithStampConcat(s, init, t);
    }
  }

  lemma {:induction false} InsertDescStable(s: seq<Item>, x: Item, t: string)
    requires Timestamped(s) && FileTimestamp in x
    ensures Timestamped(InsertDesc(s, x)) && Timestamped([x])
    ensures WithStamp(InsertDesc(s, x), t) == WithStamp(s, t) + WithStamp([x], t)
  {
    TimestampedOfMultiset(s + [x], InsertDesc(s, x));
    if s == [] {
      assert [] + [x] == [x];
    } else {
      var init, last := s[..|s| - 1], s[|s| - 1];
      assert init + [last] == s;
      assert Timestamped(init);
      if StrLess(Stamp(last), Stamp(x)) {
        var inserted := InsertDesc(init, x);
        InsertDescStable(init, x, t);
        WithStampConcat(inserted, [last], t);
        WithStampConcat(init, [last], t);
        StrLessIrreflexive(Stamp(x));
        SingletonsCommute(last, x, t);
        calc {
          WithStamp(InsertDesc(s, x), t);
          WithStamp(inserted + [last], t);
          WithStamp(inserted, t) + WithStamp([last], t);
          WithStamp(init, t) + WithStamp([x], t) + WithStamp([last], t);
          WithStamp(init, t) + (WithStamp([x], t) + WithStamp([last], t));
          WithStamp(init, t) + (WithStamp([last], t) + WithStamp([x], t));
          WithStamp(init, t) + WithStamp([last], t) + WithStamp([x], t);
          WithStamp(s, t) + WithStamp([x], t);
        }
      } else {
        WithStampConcat(s, [x], t);
      }
    }
  }

  /** Two records with different upload times: at most one of them has the time `t`. */
  lemma SingletonsCommute(a: Item, b: Item, t: string)
    requires FileTimestamp in a && FileTimestamp in b && Stamp(a) != Stamp(b)
    ensures Timestamped([a]) && Timestamped([b])
    ensures WithStamp([a], t) + WithStamp([b], t) == WithStamp([b], t) + WithStamp([a], t)
  {
    assert [a][..0] == [] && [b][..0] == [];
  }

  /** The sort is stable: the records with any one upload time keep their scan order. */
  lemma {:induction false} SortDescStable(xs: seq<Item>, t: string)
    requires Timestamped(xs)
    ensures WithStamp(SortDesc(xs), t) == WithStamp(xs, t)
  {
    if xs != [] {
      var init, last := xs[..|xs| - 1], xs[|xs| - 1];
      assert xs == init + [last];
      SortDescStable(init, t);
      InsertDescStable(SortDesc(init), last, t);
      WithStampConcat(init, [last], t);
    }
  }

  /** `x` inserted into the first `j` records of `s`, followed by the rest of `s`. */
  function InsertedBefore(s: seq<Item>, j: int, x: Item): seq<Item>
    requires Timestamped(s) && FileTimestamp in x && 0 <= j <= |s|
  {
    TimestampedPrefix(s, j);
    InsertDesc(s[..j], x) + s[j..]
  }

  /** One step of the inner loop: shifting an earlier-stamped record past `x`. */
  lemma InsertDescShift(s: seq<Item>, j: int, x: Item)
    requires Timestamped(s) && FileTimestamp in x
    requires 0 < j <= |s| && StrLess(Stamp(s[j - 1]), Stamp(x))
    ensures InsertedBefore(s, j, x) == InsertedBefore(s, j - 1, x)
  {
    TimestampedPrefix(s, j);
    assert s[..j][..j - 1] == s[..j - 1];
    assert s[j - 1..] == [s[j - 1]] + s[j..];
  }

  /** Where the inner loop stops: `x` goes right after the first `j` records. */
  lemma InsertDescStop(s: seq<Item>, j: int, x: Item)
    requires Timestamped(s) && FileTimestamp in x && 0 <= j <= |s|
    requires j == 0 || !StrLess(Stamp(s[j - 1]), Stamp(x))
    ensures InsertedBefore(s, j, x) == s[..j] + [x] + s[j..]
  {
    TimestampedPrefix(s, j);
    if j > 0 {
      assert s[..j][j - 1] == s[j - 1];
    }
  }

  lemma TimestampedPrefix(xs: seq<Item>, i: int)
    requires Timestamped(xs) && 0 <= i <= |xs|
    ensures Timestamped(xs[..i])
  {
    assert forall item :: item in xs[..i] ==> item in xs;
  }

  /** The sorted listing of the first `i` records. */
  function SortedPrefix(xs: seq<Item>, i: int): seq<Item>
    requires Timestamped(xs) && 0 <= i <= |xs|
  {
    TimestampedPrefix(xs, i);
    SortDesc(xs[..i])
  }

  /** Sorting one more record is inserting it into the sorted listing of the ones before it. */
  lemma SortDescSnoc(xs: seq<Item>, i: int)
    requires Timestamped(xs) && 0 <= i < |xs|
    ensures Timestamped(SortedPrefix(xs, i)) && FileTimestamp in xs[i]
    ensures SortedPrefix(xs, i + 1) == InsertDesc(SortedPrefix(xs, i), xs[i])
  {
    assert xs[i] in xs;
    assert xs[..i + 1][..i] == xs[..i];
    TimestampedPrefix(xs, i + 1);
  }

  /**
   * The array while `x` (at `i`) moves left: the first `j` records, a copy of
   * record `j`, records `j` to `i - 1` moved one place right, then the rest.
   */
  function Shifted(b: seq<Item>, j: int, i: int): (r: seq<Item>)
    requires 0 <= j <= i < |b|
    ensures |r| == |b|
  {
    b[..j] + [b[j]] + b[j..i] + b[i + 1..]
  }

  lemma ShiftedStart(b: seq<Item>, i: int)
    requires 0 <= i < |b|
    ensures Shifted(b, i, i) == b
  {
    assert b == b[..i] + [b[i]] + b[i + 1..];
  }

  lemma ShiftedStep(b: seq<Item>, j: int, i: int)
    requires 0 < j <= i < |b|
    ensures Shifted(b, j, i)[j - 1] == b[j - 1]
    ensures Shifted(b, j, i)[j := b[j - 1]] == Shifted(b, j - 1, i)
  {
    assert b[j - 1..i] == [b[j - 1]] + b[j..i];
    assert b[..j] == b[..j - 1] + [b[j - 1]];
  }

  lemma ShiftedDone(b: seq<Item>, j: int, i: int, x: Item)
    requires 0 <= j <= i < |b|
    ensures Shifted(b, j, i)[j := x] == b[..i][..j] + [x] + b[..i][j..] + b[i + 1..]
  {
    assert b[..i][..j] == b[..j];
    assert b[..i][j..] == b[j..i];
  }

  /** Moves `a[i]` left past the records stamped earlier than it, as one pass of insertion sort does. */
  method InsertAt(a: array<Item>, i: int)
    requires 0 <= i < a.Length && Timestamped(a[..i]) && FileTimestamp in a[i]
    modifies a
    ensures Timestamped(old(a[..i]))
    ensures a[..] == InsertDesc(old(a[..i]), old(a[i])) + old(a[i + 1..])
  {
    ghost var b := a[..];
    ghost var sorted := b[..i];
    var x := a[i];
    var j := i;
    ShiftedStart(b, i);
    assert InsertedBefore(sorted, i, x) == InsertDesc(sorted, x) by {
      assert sorted[..i] == sorted && sorted[i..] == [];
    }
    while j > 0
      invariant 0 <= j <= i
      invariant a[..] == Shifted(b, j, i)
      invariant InsertedBefore(sorted, j, x) == InsertDesc(sorted, x)
    {
      ShiftedStep(b, j, i);
      assert a[j - 1] == sorted[j - 1] && sorted[j - 1] in sorted;
      if !StrLess(Stamp(a[j - 1]), Stamp(x)) {
        break;
      }
      InsertDescShift(sorted, j, x);
      a[j] := a[j - 1];
      j := j - 1;
    }
    InsertDescStop(sorted, j, x);
    ShiftedDone(b, j, i, x);
    a[j] := x;
  }

  /** Python's in-place `list.sort(key=file_timestamp, reverse=True)`, by insertion. */
  method SortByTimestampDesc(a: array<Item>)
    requires Timestamped(a[..])
    modifies a
    ensures Timestamped(old(a[..])) && a[..] == SortDesc(old(a[..]))
  {
    ghost var input := a[..];
    var i := 0;
    assert input[0..] == input;
    while i < a.Length
      invariant 0 <= i <= a.Length
      invariant a[..] == SortedPrefix(input, i) + input[i..]
    {
      SortDescSnoc(input, i);
      Pieces(SortedPrefix(input, i), input, i);
      InsertAt(a, i);
      i := i + 1;
    }
    assert input[..a.Length] == input;
  }

  /** The parts of the array one insertion pass reads: the sorted prefix, the next record and the rest. */
  lemma Pieces(prefix: seq<Item>, input: seq<Item>, i: int)
    requires 0 <= i < |input| && |prefix| == i
    ensures (prefix + input[i..])[..i] == prefix
    ensures (prefix + input[i..])[i] == input[i]
    ensures (prefix + input[i..])[i + 1..] == input[i + 1..]
  {
  }

  /** The response of the listing, given the scan order and whether the scan response holds `Items`. */
  function Listing(table: map<string, Item>, order: seq<string>, email: string, itemsPresent: bool): (r: Result<Response, Exception>)
    ensures r.Success? ==> r.value.statusCode == 200 && r.value.headers == CorsHeaders
    ensures r.Failure? <==> itemsPresent && !Timestamped(Scan(table, order, email))
    ensures r.Failure? ==> r.error == KeyError(FileTimestamp)
  {
    if !itemsPresent then Success(Response(200, JsonString(NoItems), CorsHeaders))
    else
      var items := Scan(table, order, email);
      if !Timestamped(items) then Failure(KeyError(FileTimestamp))
      else Success(Response(200, JsonItems(SortDesc(items)), CorsHeaders))
  }

  /** One invocation of the listing handler. */
  method HandleListUploads(services: Services, email: string, order: seq<string>, itemsPresent: bool)
    returns (outcome: Result<Response, Exception>)
    ensures outcome == Listing(services.table, order, email, itemsPresent)
  {
    if !itemsPresent {
      return Success(Response(200, JsonString(NoItems), CorsHeaders));
    }
    var items := Scan(services.table, order, email);
    if !Timestamped(items) {
      return Failure(KeyError(FileTimestamp));
    }
    var returned := new Item[|items|](i requires 0 <= i < |items| => items[i]);
    assert returned[..] == items;
    SortByTimestampDesc(returned);
    return Success(Response(200, JsonItems(returned[..]), CorsHeaders));
  }

  /**
   * Both branches answer 200 with the CORS headers. A scan response without
   * `Items` is answered "No item found in dynamodb"; otherwise the listing
   * raises a key error exactly when a scanned record has no upload time, and
   * is else the scanned records rearranged newest first, ties in scan order.
   */
  lemma ListingResponse(table: map<string, Item>, order: seq<string>, email: string, itemsPresent: bool)
    ensures var outcome := Listing(table, order, email, itemsPresent);
      var scanned := Scan(table, order, email);
      (outcome.Success? ==> outcome.value.statusCode == 200 && outcome.value.headers == CorsHeaders) &&
      (!itemsPresent ==> outcome == Success(Response(200, JsonString(NoItems), CorsHeaders))) &&
      (itemsPresent ==> (outcome.Failure? <==> !Timestamped(scanned))) &&
      (outcome.Failure? ==> outcome.error == KeyError(FileTimestamp)) &&
      (itemsPresent && outcome.Success? ==>
         Timestamped(scanned) && outcome.value.body.JsonItems? &&
         var listed := outcome.value.body.items;
         multiset(listed) == multiset(scanned) && Timestamped(listed) && Descending(listed) &&
         forall t :: WithStamp(listed, t) == WithStamp(scanned, t))
  {
    var scanned := Scan(table, order, email);
    if itemsPresent && Timestamped(scanned) {
      SortDescDescending(scanned);
      forall t {
        SortDescStable(scanned, t);
      }
    }
  }

  /**
   * On a table where every owned record has an upload time, the listing
   * never raises, and it lists exactly the caller's records, each once.
   */
  lemma ListingOfTimestampedTable(table: map<string, Item>, order: seq<string>, email: string)
    requires OwnedRecordsTimestamped(table) && ScanOrder(table, order)
    ensures Listing(table, order, email, true).Success?
    ensures var listed := Listing(table, order, email, true).value.body.items;
      (forall item :: item in listed <==> item in table.Values && Owns(item, email)) &&
      |listed| == |set k | k in table && Owns(table[k], email)|
  {
    var scanned := Scan(table, order, email);
    ScanSelects(table, order, email);
    ScanCount(table, order, email);
    assert OwnedKeys(table, order, email) == set k | k in table && Owns(table[k], email);
    forall item | item in scanned
      ensures FileTimestamp in item
    {
      var k :| k in table && table[k] == item;
    }
    var listed := SortDesc(scanned);
    assert |listed| == |multiset(listed)| == |multiset(scanned)| == |scanned|;
    forall item
      ensures item in listed <==> item in scanned
    {
      assert item in listed <==> item in multiset(listed);
    }
  }

  /**
   * Upload times are compared as strings, not numbers: a record stamped
   * "999" is listed before one stamped "1000".
   */
  lemma StringsNotNumbers(older: Item, newer: Item)
    requires older == map[FileTimestamp := "999"] && newer == map[FileTimestamp := "1000"]
    ensures SortDesc([newer, older]) == [older, newer]
  {
    assert StrLess(Stamp(newer), Stamp(older));
    assert [newer, older][..1] == [newer];
    assert [newer][..0] == [];
  }
}
