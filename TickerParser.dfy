/** The best-effort scan of one ticker response.

    The payload is split on commas. Every field that contains the marker
    `bidPrice` (or `askPrice`) has its first twelve characters and its last
    character cut off, and the rest is parsed as the price. A later matching
    field overwrites an earlier one. A matching field of twelve characters
    or fewer, or one whose text does not parse, raises an error that ends
    the scan: the prices kept so far stay as they are.

    Number parsing is a parameter `parse`; `None` stands for the exception
    it raises on text that is not a number.
 */
module TickerParser {

  datatype Option<T> = None | Some(value: T)

  /** A price as the chart stores it (a double in the program). */
  type Price = real

  /** The pair of prices the polling loop holds between ticks. */
  datatype Quote = Quote(bid: Price, ask: Price)

  /** The outcome of scanning one payload: whether it finished without an
      error, and the prices held afterwards. */
  datatype Received = Received(ok: bool, quote: Quote)

  const FieldSeparator: char := ','
  const BidMarker: string := "bidPrice"
  const AskMarker: string := "askPrice"

  /** Characters cut from the front of a matching field: `"bidPrice":"`. */
  const PrefixLength: nat := 12

  // ---------------------------------------------------------------------
  // Substring search

  predicate OccursAt(s: string, t: string, i: nat)
  {
    i + |t| <= |s| && s[i..i + |t|] == t
  }

  lemma OccursShift(s: string, t: string, i: nat)
    requires |s| > 0
    ensures OccursAt(s[1..], t, i) <==> OccursAt(s, t, i + 1)
  {
    if i + 1 + |t| <= |s| {
      assert s[1..][i..i + |t|] == s[i + 1..i + 1 + |t|];
    }
  }

  /** Ordinal substring test: `t` occurs somewhere in `s`. */
  function Contains(s: string, t: string): (r: bool)
    ensures r <==> exists i: nat :: OccursAt(s, t, i)
    decreases |s|
  {
    if |t| > |s| then
      assert forall i: nat :: !OccursAt(s, t, i);
      false
    else if s[..|t|] == t then
      assert OccursAt(s, t, 0);
      true
    else
      var rest := Contains(s[1..], t);
      assert rest ==> exists i: nat :: OccursAt(s, t, i) by {
        if rest {
          var i: nat :| OccursAt(s[1..], t, i);
          OccursShift(s, t, i);
        }
      }
      assert (exists i: nat :: OccursAt(s, t, i)) ==> rest by {
        if exists i: nat :: OccursAt(s, t, i) {
          var i: nat :| OccursAt(s, t, i);
          assert i != 0;
          OccursShift(s, t, i - 1);
        }
      }
      rest
  }

  // ---------------------------------------------------------------------
  // Splitting on the field separator

  /** The fields of `s` between occurrences of `sep`; always at least one
      field, and empty fields are kept. */
  function Split(s: string, sep: char): (r: seq<string>)
    ensures |r| >= 1
    ensures forall k :: 0 <= k < |r| ==> sep !in r[k]
    decreases |s|
  {
    if |s| == 0 then [""]
    else
      var rest := Split(s[1..], sep);
      if s[0] == sep then [""] + rest
      else [[s[0]] + rest[0]] + rest[1..]
  }

  /** The fields put back together with `sep` between them: the inverse of `Split`. */
  function Join(fields: seq<string>, sep: char): string
    requires |fields| >= 1
    decreases |fields|
  {
    if |fields| == 1 then fields[0]
    else fields[0] + [sep] + Join(fields[1..], sep)
  }

  lemma {:induction false} JoinConsFirst(c: char, fields: seq<string>, sep: char)
    requires |fields| >= 1
    ensures Join([[c] + fields[0]] + fields[1..], sep) == [c] + Join(fields, sep)
  {
    var g := [[c] + fields[0]] + fields[1..];
    assert g[1..] == fields[1..];
  }

  /** Joining the fields of a split gives back the payload. */
  lemma {:induction false} JoinSplit(s: string, sep: char)
    ensures Join(Split(s, sep), sep) == s
    decreases |s|
  {
    if |s| > 0 {
      var rest := Split(s[1..], sep);
      JoinSplit(s[1..], sep);
      if s[0] == sep {
        assert ([""] + rest)[1..] == rest;
      } else {
        JoinConsFirst(s[0], rest, sep);
      }
      assert s == [s[0]] + s[1..];
    }
  }

  lemma {:induction false} SplitPrefix(a: string, t: string, sep: char)
    requires sep !in a
    ensures Split(a + t, sep) == [a + Split(t, sep)[0]] + Split(t, sep)[1..]
    decreases |a|
  {
    if |a| > 0 {
      SplitPrefix(a[1..], t, sep);
      assert (a + t)[1..] == a[1..] + t;
      assert (a + t)[0] == a[0];
      assert [a[0]] + (a[1..] + Split(t, sep)[0]) == a + Split(t, sep)[0];
    } else {
      assert a + t == t;
      assert "" + Split(t, sep)[0] == Split(t, sep)[0];
      assert Split(t, sep) == [Split(t, sep)[0]] + Split(t, sep)[1..];
    }
  }

  /** Splitting fields that hold no separator gives back the fields. */
  lemma {:induction false} SplitJoin(fields: seq<string>, sep: char)
    requires |fields| >= 1
    requires forall k :: 0 <= k < |fields| ==> sep !in fields[k]
    ensures Split(Join(fields, sep), sep) == fields
    decreases |fields|
  {
    if |fields| == 1 {
      SplitPrefix(fields[0], "", sep);
      assert fields[0] + "" == fields[0];
    } else {
      var tail := Join(fields[1..], sep);
      SplitJoin(fields[1..], sep);
      assert Join(fields, sep) == fields[0] + ([sep] + tail);
      SplitPrefix(fields[0], [sep] + tail, sep);
      assert ([sep] + tail)[1..] == tail;
      assert Split([sep] + tail, sep) == [""] + fields[1..];
      assert fields[0] + "" == fields[0];
      assert fields == [fields[0]] + fields[1..];
    }
  }

  // ---------------------------------------------------------------------
  // One field

  /** The price text of a matching field: the field without its first
      twelve characters and without its last one. */
  function PriceText(field: string): (r: string)
    requires |field| >= PrefixLength + 1
    ensures |r| + PrefixLength + 1 == |field|
    ensures field == field[..PrefixLength] + r + [field[|field| - 1]]
  {
    field[PrefixLength..|field| - 1]
  }

  /** The price a matching field yields, or `None` when taking the
      substring fails (twelve characters or fewer) or the text does not
      parse. */
  function FieldPrice(field: string, parse: string -> Option<Price>): Option<Price>
  {
    if |field| <= PrefixLength then None else parse(PriceText(field))
  }

  /** A field made of a twelve-character head, a text and one closing
      character yields the parse of exactly that text. */
  lemma FieldPriceOf(head: string, text: string, close: char, parse: string -> Option<Price>)
    requires |head| == PrefixLength
    ensures FieldPrice(head + text + [close], parse) == parse(text)
  {
    var f := head + text + [close];
    assert f[PrefixLength..|f| - 1] == text;
  }

  /** A matching field of twelve characters or fewer fails whatever its
      text: the substring cannot be taken. */
  lemma ShortFieldIsMalformed(field: string, parse: string -> Option<Price>)
    requires Matches(field) && |field| <= PrefixLength
    ensures Malformed(field, parse)
  {
  }

  predicate Matches(field: string)
  {
    Contains(field, BidMarker) || Contains(field, AskMarker)
  }

  /** A field on which the scan raises an error. */
  predicate Malformed(field: string, parse: string -> Option<Price>)
  {
    Matches(field) && FieldPrice(field, parse).None?
  }

  // ---------------------------------------------------------------------
  // A sequence of fields

  /** How many fields the scan gets through: the index of the first
      malformed field, or all of them. */
  function Accepted(fields: seq<string>, parse: string -> Option<Price>): (n: nat)
    ensures n <= |fields|
    ensures forall k :: 0 <= k < n ==> !Malformed(fields[k], parse)
    ensures n < |fields| ==> Malformed(fields[n], parse)
    decreases |fields|
  {
    if fields == [] then 0
    else if Malformed(fields[0], parse) then 0
    else 1 + Accepted(fields[1..], parse)
  }

  /** The index of the last field that contains `marker`. */
  function LastWith(fields: seq<string>, marker: string): (r: Option<nat>)
    ensures r.None? <==> forall k :: 0 <= k < |fields| ==> !Contains(fields[k], marker)
    ensures r.Some? ==> r.value < |fields| && Contains(fields[r.value], marker)
    ensures r.Some? ==> forall k :: r.value < k < |fields| ==> !Contains(fields[k], marker)
    decreases |fields|
  {
    if fields == [] then None
    else if Contains(fields[|fields| - 1], marker) then Some(|fields| - 1)
    else LastWith(fields[..|fields| - 1], marker)
  }

  /** Every field carrying `marker` yields a price. */
  ghost predicate Priced(fields: seq<string>, marker: string, parse: string -> Option<Price>)
  {
    forall k :: 0 <= k < |fields| && Contains(fields[k], marker) ==> FieldPrice(fields[k], parse).Some?
  }

  /** The price held for `marker` after scanning `fields` from `prior`. */
  function Scanned(fields: seq<string>, marker: string, parse: string -> Option<Price>, prior: Price): Price
    requires Priced(fields, marker, parse)
  {
    match LastWith(fields, marker)
    case None => prior
    case Some(k) => FieldPrice(fields[k], parse).value
  }

  lemma AcceptedPriced(fields: seq<string>, parse: string -> Option<Price>)
    ensures Priced(fields[..Accepted(fields, parse)], BidMarker, parse)
    ensures Priced(fields[..Accepted(fields, parse)], AskMarker, parse)
  {
  }

  /** The scan of a list of fields. */
  function Scan(fields: seq<string>, parse: string -> Option<Price>, prior: Quote): (r: Received)
    ensures r.ok <==> forall k :: 0 <= k < |fields| ==> !Malformed(fields[k], parse)
  {
    var n := Accepted(fields, parse);
    AcceptedPriced(fields, parse);
    var head := fields[..n];
    Received(n == |fields|,
             Quote(Scanned(head, BidMarker, parse, prior.bid),
                   Scanned(head, AskMarker, parse, prior.ask)))
  }

  /** The scan of one response payload. */
  function Receive(payload: string, parse: string -> Option<Price>, prior: Quote): Received
  {
    Scan(Split(payload, FieldSeparator), parse, prior)
  }

  /** Scanning one more well-formed field: a field carrying a marker
      replaces the price for that marker, and nothing else changes. */
  lemma ScanStep(fields: seq<string>, i: nat, parse: string -> Option<Price>, prior: Quote)
    requires i < |fields|
    requires forall k :: 0 <= k <= i ==> !Malformed(fields[k], parse)
    ensures Scan(fields[..i + 1], parse, prior).ok
    ensures var before := Scan(fields[..i], parse, prior).quote;
      Scan(fields[..i + 1], parse, prior).quote ==
        Quote(if Contains(fields[i], BidMarker) then FieldPrice(fields[i], parse).value else before.bid,
              if Contains(fields[i], AskMarker) then FieldPrice(fields[i], parse).value else before.ask)
  {
    var head, next := fields[..i], fields[..i + 1];
    assert next[..i] == head;
    assert Accepted(head, parse) == i;
    assert Accepted(next, parse) == i + 1;
    assert head[..i] == head && next[..i + 1] == next;
  }

  /** A malformed field after well-formed ones ends the scan with the
      prices of the fields before it. */
  lemma ScanStopsAt(fields: seq<string>, i: nat, parse: string -> Option<Price>, prior: Quote)
    requires i < |fields|
    requires forall k :: 0 <= k < i ==> !Malformed(fields[k], parse)
    requires Malformed(fields[i], parse)
    ensures Scan(fields, parse, prior) == Received(false, Scan(fields[..i], parse, prior).quote)
  {
    var head := fields[..i];
    assert Accepted(fields, parse) == i;
    assert Accepted(head, parse) == i;
    assert head[..i] == head;
  }

  // ---------------------------------------------------------------------
  // What the scan promises

  /** On success the bid is the price of the last field carrying the bid
      marker. */
  lemma ScanTakesLastField(fields: seq<string>, parse: string -> Option<Price>, prior: Quote, k: nat)
    requires Scan(fields, parse, prior).ok
    requires k < |fields| && Contains(fields[k], BidMarker)
    requires forall j :: k < j < |fields| ==> !Contains(fields[j], BidMarker)
    ensures |fields[k]| > PrefixLength
    ensures Scan(fields, parse, prior).quote.bid == parse(PriceText(fields[k])).value
  {
    assert !Malformed(fields[k], parse);
    assert fields[..|fields|] == fields;
  }

  /** On success the ask is the price of the last field carrying the ask
      marker. */
  lemma ScanTakesLastAskField(fields: seq<string>, parse: string -> Option<Price>, prior: Quote, k: nat)
    requires Scan(fields, parse, prior).ok
    requires k < |fields| && Contains(fields[k], AskMarker)
    requires forall j :: k < j < |fields| ==> !Contains(fields[j], AskMarker)
    ensures |fields[k]| > PrefixLength
    ensures Scan(fields, parse, prior).quote.ask == parse(PriceText(fields[k])).value
  {
    assert !Malformed(fields[k], parse);
    assert fields[..|fields|] == fields;
  }

  /** A payload with no bid field leaves the bid as it was, whether or not
      the scan fails elsewhere. */
  lemma ScanKeepsBidWithoutMarker(fields: seq<string>, parse: string -> Option<Price>, prior: Quote)
    requires forall k :: 0 <= k < |fields| ==> !Contains(fields[k], BidMarker)
    ensures Scan(fields, parse, prior).quote.bid == prior.bid
  {
    var n := Accepted(fields, parse);
    assert forall k :: 0 <= k < n ==> fields[..n][k] == fields[k];
  }

  /** A payload with no ask field leaves the ask as it was, whether or not
      the scan fails elsewhere. */
  lemma ScanKeepsAskWithoutMarker(fields: seq<string>, parse: string -> Option<Price>, prior: Quote)
    requires forall k :: 0 <= k < |fields| ==> !Contains(fields[k], AskMarker)
    ensures Scan(fields, parse, prior).quote.ask == prior.ask
  {
    var n := Accepted(fields, parse);
    assert forall k :: 0 <= k < n ==> fields[..n][k] == fields[k];
  }

  /** The two prices are scanned independently: the bid held afterwards
      does not depend on the ask held before, and vice versa. */
  lemma ScanIndependent(fields: seq<string>, parse: string -> Option<Price>, p: Quote, q: Quote)
    ensures p.bid == q.bid ==> Scan(fields, parse, p).quote.bid == Scan(fields, parse, q).quote.bid
    ensures p.ask == q.ask ==> Scan(fields, parse, p).quote.ask == Scan(fields, parse, q).quote.ask
  {
  }

  /** A failed scan keeps the prices of the fields before the first
      malformed one: its result is the scan of that prefix, which
      succeeds. */
  lemma ScanFailureKeepsPrefix(fields: seq<string>, parse: string -> Option<Price>, prior: Quote)
    ensures var n := Accepted(fields, parse);
      Scan(fields[..n], parse, prior) == Received(true, Scan(fields, parse, prior).quote)
  {
    var n := Accepted(fields, parse);
    var head := fields[..n];
    assert Accepted(head, parse) == n;
    assert head[..n] == head;
  }

  /** The price text of a bid field in the exchange's format. */
  lemma PriceTextOfBidField()
    ensures PriceText("\"bidPrice\":\"123.45\"") == "123.45"
  {
  }

  /** A marker with a character that does not occur in `s` is not in `s`. */
  lemma NotContainsByChar(s: string, t: string, j: nat)
    requires j < |t| && t[j] !in s
    ensures !Contains(s, t)
  {
  }

  /** The fields of a response in the exchange's format (abridged). */
  const SampleFields: seq<string> :=
    ["{\"symbol\":\"BTCUSDT\"", "\"bidPrice\":\"123.45\"", "\"askPrice\":\"123.50\"", "\"askQty\":\"2.0\"}"]

  lemma SampleOtherFields()
    ensures !Matches(SampleFields[0]) && !Matches(SampleFields[3])
  {
    var f0, f3 := SampleFields[0], SampleFields[3];
    assert 'P' !in f0 && 'P' !in f3;
    NotContainsByChar(f0, BidMarker, 3);
    NotContainsByChar(f0, AskMarker, 3);
    NotContainsByChar(f3, BidMarker, 3);
    NotContainsByChar(f3, AskMarker, 3);
  }

  lemma SampleBidField()
    ensures Contains(SampleFields[1], BidMarker) && !Contains(SampleFields[1], AskMarker)
  {
    var f := SampleFields[1];
    assert f[1..9] == BidMarker;
    assert OccursAt(f, BidMarker, 1);
    assert 'k' !in f;
    NotContainsByChar(f, AskMarker, 2);
  }

  lemma SampleAskField()
    ensures Contains(SampleFields[2], AskMarker) && !Contains(SampleFields[2], BidMarker)
  {
    var f := SampleFields[2];
    assert f[1..9] == AskMarker;
    assert OccursAt(f, AskMarker, 1);
    assert 'b' !in f;
    NotContainsByChar(f, BidMarker, 0);
  }

  /** A response whose fields are: other, bid, ask, other. */
  lemma ScanBidThenAsk(f: seq<string>, parse: string -> Option<Price>, prior: Quote)
    requires |f| == 4 && !Matches(f[0]) && !Matches(f[3])
    requires Contains(f[1], BidMarker) && !Contains(f[1], AskMarker)
    requires Contains(f[2], AskMarker) && !Contains(f[2], BidMarker)
    requires FieldPrice(f[1], parse).Some? && FieldPrice(f[2], parse).Some?
    ensures Scan(f, parse, prior)
         == Received(true, Quote(FieldPrice(f[1], parse).value, FieldPrice(f[2], parse).value))
  {
    assert forall k :: 0 <= k < 4 ==> !Malformed(f[k], parse);
    assert Accepted(f, parse) == 4;
    assert f[..4] == f;
    assert f[..4][..3] == f[..3] && f[..3][..2] == f[..2];
    assert f[..2][..1] == f[..1] && f[..1][..0] == [];
    assert LastWith(f[..2], AskMarker) == None;
    assert LastWith(f, AskMarker) == Some(2);
    assert LastWith(f[..3], BidMarker) == Some(1);
    assert LastWith(f, BidMarker) == Some(1);
  }

  lemma SamplePrices(parse: string -> Option<Price>)
    ensures FieldPrice(SampleFields[1], parse) == parse("123.45")
    ensures FieldPrice(SampleFields[2], parse) == parse("123.50")
  {
    assert PriceText(SampleFields[1]) == "123.45";
    assert PriceText(SampleFields[2]) == "123.50";
  }

  /** A response in the exchange's format yields the bid and ask texts. */
  lemma ReceiveSample(payload: string, parse: string -> Option<Price>, prior: Quote)
    requires payload == Join(SampleFields, FieldSeparator)
    requires parse("123.45").Some? && parse("123.50").Some?
    ensures Receive(payload, parse, prior)
         == Received(true, Quote(parse("123.45").value, parse("123.50").value))
  {
    var f := Split(payload, FieldSeparator);
    SplitJoin(SampleFields, FieldSeparator);
    SampleOtherFields();
    SampleBidField();
    SampleAskField();
    SamplePrices(parse);
    ScanBidThenAsk(f, parse, prior);
  }
}
