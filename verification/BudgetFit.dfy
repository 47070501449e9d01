/** Rendering an API result within a character budget: whole items of the longest list are
    dropped from its end until the compact JSON fits, and the text says how many are shown. */
module BudgetFit {
  import opened Wrappers

  /** A result as the serializer sees it: an atom and a key are the text it writes for them. */
  datatype Json = Null | Atom(text: string) | List(items: seq<Json>) | Object(fields: seq<Field>)

  datatype Field = Field(key: string, value: Json)

  // ---------------------------------------------------------------------- compact JSON

  function Compact(j: Json): string {
    match j
    case Null => "null"
    case Atom(text) => text
    case List(items) => "[" + CompactItems(items) + "]"
    case Object(fields) => "{" + CompactFields(fields) + "}"
  }

  function CompactItems(items: seq<Json>): string {
    if items == [] then ""
    else if |items| == 1 then Compact(items[0])
    else Compact(items[0]) + "," + CompactItems(items[1..])
  }

  function CompactField(field: Field): string {
    field.key + ":" + Compact(field.value)
  }

  function CompactFields(fields: seq<Field>): string {
    if fields == [] then ""
    else if |fields| == 1 then CompactField(fields[0])
    else CompactField(fields[0]) + "," + CompactFields(fields[1..])
  }

  /** A shorter prefix of a list is no longer in compact JSON. */
  lemma {:induction false} PrefixIsShorter(items: seq<Json>, k: nat)
    requires k <= |items|
    ensures |CompactItems(items[..k])| <= |CompactItems(items)|
  {
    if 1 < k {
      PrefixIsShorter(items[1..], k - 1);
      assert items[..k][1..] == items[1..][..k - 1];
    }
  }

  lemma {:induction false} SwapField(fields: seq<Field>, at: nat, a: Json, b: Json)
    requires at < |fields| && |Compact(a)| <= |Compact(b)|
    ensures |CompactFields(fields[at := fields[at].(value := a)])|
            <= |CompactFields(fields[at := fields[at].(value := b)])|
  {
    var x, y := fields[at := fields[at].(value := a)], fields[at := fields[at].(value := b)];
    if at == 0 {
      assert x[1..] == fields[1..] == y[1..];
    } else {
      SwapField(fields[1..], at - 1, a, b);
      assert x[1..] == fields[1..][at - 1 := fields[at].(value := a)];
      assert y[1..] == fields[1..][at - 1 := fields[at].(value := b)];
    }
  }

  // ------------------------------------------------------------------ what is trimmed

  /** The list that is trimmed: the result itself, or the field at a position. */
  datatype Place = Whole | At(index: nat)

  predicate ListAt(fields: seq<Field>, i: nat) {
    i < |fields| && fields[i].value.List?
  }

  /** No list among the first n fields is longer, and none before it is as long. */
  predicate LongestAmong(fields: seq<Field>, i: nat, n: nat)
    requires n <= |fields|
  {
    && ListAt(fields, i)
    && forall k :: 0 <= k < n && ListAt(fields, k) ==>
         var longest, other := |fields[i].value.items|, |fields[k].value.items|;
         other <= longest && (k < i ==> other < longest)
  }

  predicate IsLongestList(fields: seq<Field>, i: nat) {
    LongestAmong(fields, i, |fields|)
  }

  predicate IsPlace(result: Json, place: Place) {
    match place
    case Whole => result.List?
    case At(i) => result.Object? && IsLongestList(result.fields, i)
  }

  function ItemsAt(result: Json, place: Place): seq<Json>
    requires IsPlace(result, place)
  {
    match place
    case Whole => result.items
    case At(i) => result.fields[i].value.items
  }

  function Rebuild(result: Json, place: Place, kept: seq<Json>): Json
    requires IsPlace(result, place)
  {
    match place
    case Whole => List(kept)
    case At(i) => Object(result.fields[i := result.fields[i].(value := List(kept))])
  }

  predicate Fits(result: Json, place: Place, k: nat, budget: nat)
    requires IsPlace(result, place) && k <= |ItemsAt(result, place)|
  {
    |Compact(Rebuild(result, place, ItemsAt(result, place)[..k]))| <= budget
  }

  /** A prefix that fits has only prefixes that fit. */
  lemma FitsDownward(result: Json, place: Place, k: nat, m: nat, budget: nat)
    requires IsPlace(result, place) && k <= m <= |ItemsAt(result, place)| && Fits(result, place, m, budget)
    ensures Fits(result, place, k, budget)
  {
    var items := ItemsAt(result, place);
    assert items[..m][..k] == items[..k];
    PrefixIsShorter(items[..m], k);
    match place
    case Whole =>
    case At(i) => SwapField(result.fields, i, List(items[..k]), List(items[..m]));
  }

  /** `shown` is the longest non-empty prefix that fits, or one item if none does. */
  ghost predicate IsBestFit(result: Json, place: Place, budget: nat, shown: nat) {
    && IsPlace(result, place) && 1 <= shown <= |ItemsAt(result, place)|
    && (shown > 1 ==> Fits(result, place, shown, budget))
    && forall k :: shown < k <= |ItemsAt(result, place)| ==> !Fits(result, place, k, budget)
  }

  lemma OnePlace(result: Json, p: Place, q: Place)
    requires IsPlace(result, p) && IsPlace(result, q)
    ensures p == q
  {
    if result.Object? {
      assert ListAt(result.fields, p.index);
      assert ListAt(result.fields, q.index);
    }
  }

  /** So the budget alone decides what is kept. */
  lemma OneBestFit(result: Json, p: Place, q: Place, budget: nat, a: nat, b: nat)
    requires IsBestFit(result, p, budget, a) && IsBestFit(result, q, budget, b)
    ensures p == q && a == b
  {
    OnePlace(result, p, q);
  }

  /** A bigger budget never shows less. */
  lemma BiggerBudget(result: Json, place: Place, small: nat, big: nat, a: nat, b: nat)
    requires small <= big && IsBestFit(result, place, small, a) && IsBestFit(result, place, big, b)
    ensures a <= b
  {
    if b < a {
      assert Fits(result, place, a, small);
      assert Fits(result, place, a, big);
    }
  }

  ghost predicate NothingToTrim(result: Json) {
    forall place :: IsPlace(result, place) ==> ItemsAt(result, place) == []
  }

  /** The first longest list of an object, found in one pass over its fields. */
  method LongestList(fields: seq<Field>) returns (at: Option<nat>)
    ensures at.Some? ==> IsLongestList(fields, at.value)
    ensures at.Some? ==>
              && at.value < |fields| && fields[at.value].value.List?
              && forall k :: 0 <= k < |fields| && fields[k].value.List? ==>
                   if k < at.value then |fields[k].value.items| < |fields[at.value].value.items|
                   else |fields[k].value.items| <= |fields[at.value].value.items|
    ensures at == None ==> forall i :: 0 <= i < |fields| ==> !ListAt(fields, i)
  {
    at := None;
    for n := 0 to |fields|
      invariant at.Some? ==> at.value < n && LongestAmong(fields, at.value, n)
      invariant at == None ==> forall i :: 0 <= i < n ==> !ListAt(fields, i)
    {
      if fields[n].value.List? && (at == None || |fields[n].value.items| > |fields[at.value].value.items|) {
        at := Some(n);
      }
    }
  }

  /** The binary search: it ends, and finds the longest prefix that fits. */
  method LongestFit(result: Json, place: Place, budget: nat) returns (shown: nat)
    requires IsPlace(result, place) && ItemsAt(result, place) != []
    ensures IsBestFit(result, place, budget, shown)
  {
    var items := ItemsAt(result, place);
    var low, high, best := 0, |items|, None;
    while low <= high
      invariant 0 <= low <= high + 1 <= |items| + 1
      invariant best == None ==> low <= 1
      invariant best.Some? ==> 1 <= best.value == low - 1 && Fits(result, place, best.value, budget)
      invariant forall k :: high < k <= |items| ==> !Fits(result, place, k, budget)
      decreases high - low
    {
      var mid := (low + high) / 2;
      if mid == 0 {
        low := 1;
        continue;
      }
      if |Compact(Rebuild(result, place, items[..mid]))| <= budget {
        best := Some(mid);
        low := mid + 1;
      } else {
        forall k | mid <= k <= |items| ensures !Fits(result, place, k, budget) {
          if Fits(result, place, k, budget) {
            FitsDownward(result, place, mid, k, budget);
          }
        }
        high := mid - 1;
      }
    }
    shown := if best.Some? then best.value else 1;
  }

  datatype Fitted = Fitted(payload: Json, shown: nat, total: nat)

  ghost predicate IsFitted(result: Json, budget: nat, fitted: Fitted) {
    exists place ::
      && IsBestFit(result, place, budget, fitted.shown)
      && fitted.total == |ItemsAt(result, place)|
      && fitted.payload == Rebuild(result, place, ItemsAt(result, place)[..fitted.shown])
  }

  method FitToBudget(result: Json, budget: nat) returns (fitted: Option<Fitted>)
    ensures fitted == None <==> NothingToTrim(result)
    ensures fitted.Some? ==> IsFitted(result, budget, fitted.value)
  {
    var place := Whole;
    if result.Object? {
      var at := LongestList(result.fields);
      if at == None {
        return None;
      }
      place := At(at.value);
    } else if !result.List? {
      return None;
    }
    var items := ItemsAt(result, place);
    if items == [] {
      return None;
    }
    var shown := LongestFit(result, place, budget);
    return Some(Fitted(Rebuild(result, place, items[..shown]), shown, |items|));
  }

  // ---------------------------------------------------------------------- rendering

  const RENDER_BUDGET_CHARS := 5500

  function Decimal(n: nat): string {
    if n < 10 then ["0123456789"[n]] else Decimal(n / 10) + ["0123456789"[n % 10]]
  }

  function Note(shown: nat, total: nat): string {
    "\n[showing " + Decimal(shown) + " of " + Decimal(total)
    + " items \U{2014} narrow the filters or fetch a specific id to see the rest]"
  }

  /** A result is rendered whole when it fits or holds nothing to trim; otherwise the best fit
      is rendered, and the note is there exactly when items are missing. */
  method RenderResult(result: Json) returns (text: string)
    ensures result == Null ==> text == "Done."
    ensures result != Null && (|Compact(result)| <= 5500 || NothingToTrim(result)) ==>
              text == Compact(result)
    ensures result != Null && |Compact(result)| > 5500 && !NothingToTrim(result) ==>
              exists f ::
                && IsFitted(result, 5500, f)
                && text == Compact(f.payload) + if f.payload == result then "" else Note(f.shown, f.total)
  {
    if result == Null {
      return "Done.";
    }
    text := Compact(result);
    if |text| <= RENDER_BUDGET_CHARS {
      return;
    }
    var fitted := FitToBudget(result, RENDER_BUDGET_CHARS);
    if fitted == None {
      return;
    }
    var f := fitted.value;
    text := Compact(f.payload);
    if f.shown < f.total {
      text := text + Note(f.shown, f.total);
    }
    WholeIsShown(result, RENDER_BUDGET_CHARS, f);
  }

  /** What the best fit is, on the result alone: its longest list cut short, everything else as
      it was, within the budget if more than one item is left, and with no room for one more. */
  lemma FittedIs(result: Json, budget: nat, f: Fitted)
    requires IsFitted(result, budget, f)
    ensures 1 <= f.shown <= f.total && (f.shown > 1 ==> |Compact(f.payload)| <= budget)
    ensures result.List? ==> |result.items| == f.total && f.payload == List(result.items[..f.shown])
    ensures !result.List? ==> result.Object? && f.payload.Object? && exists i ::
      && 0 <= i < |result.fields| == |f.payload.fields| && result.fields[i].value.List?
      && |result.fields[i].value.items| == f.total
      && f.payload.fields[i] == Field(result.fields[i].key, List(result.fields[i].value.items[..f.shown]))
      && (forall k :: 0 <= k < |result.fields| && k != i ==> f.payload.fields[k] == result.fields[k])
      && (forall k :: 0 <= k < |result.fields| && result.fields[k].value.List? ==>
            |result.fields[k].value.items| <= f.total && (k < i ==> |result.fields[k].value.items| < f.total))
  {
    var place :| IsBestFit(result, place, budget, f.shown)
      && f.total == |ItemsAt(result, place)|
      && f.payload == Rebuild(result, place, ItemsAt(result, place)[..f.shown]);
    if place.At? {
      assert ListAt(result.fields, place.index);
      assert f.payload.fields[place.index].value.List?;
      assert forall k :: 0 <= k < |result.fields| && result.fields[k].value.List? ==> ListAt(result.fields, k);
    }
  }

  lemma OneMoreIsTooMany(result: Json, budget: nat, f: Fitted, more: nat)
    requires IsFitted(result, budget, f) && f.shown < more <= f.total
    ensures result.List? ==> |Compact(List(result.items[..more]))| > budget
    ensures result.Object? ==> exists i ::
      && 0 <= i < |result.fields| && result.fields[i].value.List? && |result.fields[i].value.items| == f.total
      && |Compact(Object(result.fields[i := Field(result.fields[i].key,
                                                  List(result.fields[i].value.items[..more]))]))| > budget
  {
    var place :| IsBestFit(result, place, budget, f.shown)
      && f.total == |ItemsAt(result, place)|
      && f.payload == Rebuild(result, place, ItemsAt(result, place)[..f.shown]);
    assert !Fits(result, place, more, budget);
    if place.At? {
      var field := result.fields[place.index];
      assert field.(value := List(field.value.items[..more])) == Field(field.key, List(field.value.items[..more]));
    }
  }

  /** The payload is the result itself exactly when every item is shown. */
  lemma WholeIsShown(result: Json, budget: nat, f: Fitted)
    requires IsFitted(result, budget, f)
    ensures f.payload == result <==> f.shown == f.total
  {
    var place :| IsBestFit(result, place, budget, f.shown)
      && f.total == |ItemsAt(result, place)|
      && f.payload == Rebuild(result, place, ItemsAt(result, place)[..f.shown]);
    var items := ItemsAt(result, place);
    if f.shown == f.total {
      assert items[..f.shown] == items;
    } else {
      assert ItemsAt(result, place) != items[..f.shown];
    }
  }

  /** With a payload that fits, the note still leaves the text inside the caller's cap. */
  lemma StaysInsideCap(payload: Json, shown: nat, total: nat)
    requires |Compact(payload)| <= 5500 && shown < total && |Decimal(total)| <= 200
    ensures |Compact(payload) + Note(shown, total)| <= 6000
  {
    DecimalGrows(shown, total);
  }

  lemma {:induction false} DecimalGrows(a: nat, b: nat)
    requires a <= b
    ensures |Decimal(a)| <= |Decimal(b)|
  {
    if a >= 10 {
      DecimalGrows(a / 10, b / 10);
    }
  }

  /** The number a decimal writes. */
  function ValueOf(digits: string): nat {
    if digits == "" then 0 else 10 * ValueOf(digits[..|digits| - 1]) + DigitOf(digits[|digits| - 1])
  }

  function DigitOf(c: char): nat {
    if '0' <= c <= '9' then c as int - '0' as int else 0
  }

  /** A count, read back, is the count; it is written in digits, without a leading zero. */
  lemma {:induction false} DecimalReads(n: nat)
    ensures ValueOf(Decimal(n)) == n && Decimal(n) != ""
    ensures forall c :: c in Decimal(n) ==> '0' <= c <= '9'
    ensures n > 0 ==> Decimal(n)[0] != '0'
  {
    if n < 10 {
      OneDigit(n);
    } else {
      DecimalReads(n / 10);
      OneDigit(n % 10);
      ReadsOn(Decimal(n / 10), "0123456789"[n % 10]);
    }
  }

  lemma OneDigit(n: nat)
    requires n < 10
    ensures '0' <= "0123456789"[n] <= '9' && DigitOf("0123456789"[n]) == n && ("0123456789"[n] == '0' <==> n == 0)
    ensures ValueOf(["0123456789"[n]]) == n
  {
    assert ["0123456789"[n]][..0] == "";
  }

  lemma ReadsOn(front: string, last: char)
    ensures ValueOf(front + [last]) == 10 * ValueOf(front) + DigitOf(last)
  {
    assert (front + [last])[..|front|] == front;
  }

  /** The count line, on an example. */
  lemma NoteReads()
    ensures Note(3, 12)
            == "\n[showing " + "3" + " of " + "12"
               + " items \U{2014} narrow the filters or fetch a specific id to see the rest]"
  {
    assert Decimal(12) == Decimal(1) + "2";
  }

  /** The compact form, on an example. */
  lemma CompactReads()
    ensures Compact(Object([Field("\"n\"", List([Atom("1"), Null])), Field("\"e\"", Object([]))]))
            == "{" + "\"n\":[1,null]" + "," + "\"e\":{}" + "}"
  {
    var n, e := Field("\"n\"", List([Atom("1"), Null])), Field("\"e\"", Object([]));
    assert CompactField(n) == "\"n\":[1,null]" by {
      assert [Atom("1"), Null][1..] == [Null];
      assert CompactItems([Atom("1"), Null]) == "1,null";
    }
    assert CompactField(e) == "\"e\":{}";
    assert [n, e][1..] == [e];
  }

  /** Compact JSON has one separator between neighbours and nothing else around them. */
  lemma {:induction false} CompactLength(items: seq<Json>)
    ensures |CompactItems(items)| == Lengths(items) + if |items| > 1 then |items| - 1 else 0
  {
    if |items| > 1 {
      CompactLength(items[1..]);
    }
  }

  function Lengths(items: seq<Json>): nat {
    if items == [] then 0 else |Compact(items[0])| + Lengths(items[1..])
  }
}
