/** The three pure helpers of src/app/common/utils.ts: the page count, the search filter
    and the arrow-key index arithmetic of the grid. */
module Utils {
  import opened Wrappers
  import opened Interfaces
  import opened JsBuiltins

  // ---------------------------------------------------------------------------
  // getTotalPageCount
  // ---------------------------------------------------------------------------

  /** `Math.ceil(a / b)` for integers, `b` not zero: the least integer not below `a / b`. */
  function CeilDiv(a: int, b: int): (q: int)
    requires b != 0
    ensures b > 0 ==> (q - 1) * b < a <= q * b
    ensures b < 0 ==> q * b <= a < (q - 1) * b
  {
    if b > 0 then -((-a) / b) else -(a / (-b))
  }

  /** With a positive divisor, no integer below `CeilDiv(a, b)` reaches `a` when multiplied by `b`. */
  lemma CeilDivIsLeast(a: int, b: int, n: int)
    requires b > 0 && n * b >= a
    ensures n >= CeilDiv(a, b)
  {
    var q := CeilDiv(a, b);
    var d := n - (q - 1);
    assert n * b == (q - 1) * b + d * b;
    assert d * b > 0;
  }

  /** `getTotalPageCount(total, perPage)`, i.e. `Math.ceil(parseInt(total) / parseInt(perPage))`.
      A string parseInt cannot read gives NaN and a zero divisor gives NaN or an infinity; none
      of them is an integer, so all of them are `None` here. */
  function GetTotalPageCount(totalItemCount: string, itemCountPerPage: string): (r: Option<int>)
    ensures r.Some? <==>
      ParseInt(totalItemCount).Some? && ParseInt(itemCountPerPage).Some? && ParseInt(itemCountPerPage).value != 0
    ensures r.Some? && ParseInt(itemCountPerPage).value > 0 ==>
      (r.value - 1) * ParseInt(itemCountPerPage).value < ParseInt(totalItemCount).value
        <= r.value * ParseInt(itemCountPerPage).value
  {
    match (ParseInt(totalItemCount), ParseInt(itemCountPerPage))
    case (Some(total), Some(perPage)) => if perPage == 0 then None else Some(CeilDiv(total, perPage))
    case _ => None
  }

  /** On decimal numerals with a positive page size the page count is the least `n` with
      `n * perPage >= total`. */
  lemma TotalPageCountOfNumerals(total: nat, perPage: nat)
    requires perPage > 0
    ensures var r := GetTotalPageCount(DecimalString(total), DecimalString(perPage));
            r.Some? && r.value >= 0 && r.value * perPage >= total &&
            forall n: int :: n < r.value ==> n * perPage < total
  {
    ParseIntOfDecimalString(total);
    ParseIntOfDecimalString(perPage);
    var q := CeilDiv(total, perPage);
    forall n: int | n < q ensures n * perPage < total {
      if n * perPage >= total {
        CeilDivIsLeast(total, perPage, n);
      }
    }
  }

  /** A page size of zero gives no page count at all. */
  lemma TotalPageCountOfZeroPageSize(totalItemCount: string)
    ensures GetTotalPageCount(totalItemCount, "0") == None
  {
    assert ParseInt("0") == Some(0) by { ParseIntOfDecimalString(0); }
  }

  /** A total of zero items gives zero pages (or none, when the page size is unreadable or zero),
      never a page number from 1 up. */
  lemma TotalPageCountOfZeroTotal(itemCountPerPage: string, pageNum: int)
    requires pageNum >= 1
    ensures GetTotalPageCount("0", itemCountPerPage) != Some(pageNum)
  {
    assert ParseInt("0") == Some(0) by { ParseIntOfDecimalString(0); }
  }

  /** The example of 45 items served 20 to a page. */
  lemma TotalPageCountExample()
    ensures GetTotalPageCount("45", "20") == Some(3)
  {
    assert DecimalDigit(4) == '4' && DecimalDigit(5) == '5';
    assert DecimalDigit(2) == '2' && DecimalDigit(0) == '0';
    assert DecimalString(45) == "45";
    assert DecimalString(20) == "20";
    ParseIntOfDecimalString(45);
    ParseIntOfDecimalString(20);
    assert CeilDiv(45, 20) == 3;
  }

  // ---------------------------------------------------------------------------
  // getFilteredItems
  // ---------------------------------------------------------------------------

  /** The filter's test: the lower-cased name includes the lower-cased search key. */
  predicate Matches(item: ContentItem, searchKey: string) {
    Includes(ToLowerCase(item.name), ToLowerCase(searchKey))
  }

  /** `getFilteredItems(content, searchKey)`: the items whose name matches, in their order. */
  function GetFilteredItems(content: seq<ContentItem>, searchKey: string): (r: seq<ContentItem>)
    ensures |r| <= |content|
    ensures forall x :: x in r ==> x in content && Matches(x, searchKey)
    ensures forall x :: x in content && Matches(x, searchKey) ==> x in r
  {
    if content == [] then []
    else (if Matches(content[0], searchKey) then [content[0]] else [])
         + GetFilteredItems(content[1..], searchKey)
  }

  /** `sub` is `s` with some elements left out and the rest kept in their order. */
  predicate IsSubsequence<T(==)>(sub: seq<T>, s: seq<T>)
    decreases |s|
  {
    if sub == [] then true
    else if s == [] then false
    else (sub[0] == s[0] && IsSubsequence(sub[1..], s[1..])) || IsSubsequence(sub, s[1..])
  }

  /** The filtered items are a subsequence of the items: original relative order is kept. */
  lemma {:induction false} FilteredItemsIsSubsequence(content: seq<ContentItem>, searchKey: string)
    ensures IsSubsequence(GetFilteredItems(content, searchKey), content)
  {
    if content != [] {
      var r := GetFilteredItems(content, searchKey);
      var tail := GetFilteredItems(content[1..], searchKey);
      FilteredItemsIsSubsequence(content[1..], searchKey);
      if Matches(content[0], searchKey) {
        assert r[0] == content[0] && r[1..] == tail;
      } else {
        assert r == tail;
      }
    }
  }

  /** Filtering distributes over concatenation; with the case of one item (the body) this
      determines the result completely, order included. */
  lemma {:induction false} FilteredItemsAppend(a: seq<ContentItem>, b: seq<ContentItem>, searchKey: string)
    ensures GetFilteredItems(a + b, searchKey) == GetFilteredItems(a, searchKey) + GetFilteredItems(b, searchKey)
  {
    if a != [] {
      assert (a + b)[1..] == a[1..] + b;
      FilteredItemsAppend(a[1..], b, searchKey);
    } else {
      assert a + b == b;
    }
  }

  /** An empty search key keeps every item. */
  lemma {:induction false} FilteredItemsEmptyKey(content: seq<ContentItem>)
    ensures GetFilteredItems(content, "") == content
  {
    if content != [] {
      IncludesEmpty(ToLowerCase(content[0].name));
      assert ToLowerCase("") == "";
      FilteredItemsEmptyKey(content[1..]);
    }
  }

  /** Filtering twice with the same key is filtering once. */
  lemma {:induction false} FilteredItemsIdempotent(content: seq<ContentItem>, searchKey: string)
    ensures GetFilteredItems(GetFilteredItems(content, searchKey), searchKey) == GetFilteredItems(content, searchKey)
  {
    if content != [] {
      var head := if Matches(content[0], searchKey) then [content[0]] else [];
      var tail := GetFilteredItems(content[1..], searchKey);
      FilteredItemsAppend(head, tail, searchKey);
      FilteredItemsIdempotent(content[1..], searchKey);
      if head != [] {
        assert head[1..] == [];
      }
    }
  }

  /** Two search keys with the same lower-case form select the same items. */
  lemma {:induction false} FilteredItemsCaseInsensitive(content: seq<ContentItem>, key1: string, key2: string)
    requires ToLowerCase(key1) == ToLowerCase(key2)
    ensures GetFilteredItems(content, key1) == GetFilteredItems(content, key2)
  {
    if content != [] {
      FilteredItemsCaseInsensitive(content[1..], key1, key2);
    }
  }

  /** In particular, typing the key in capitals changes nothing. This holds for the ASCII
      case mapping modelled here, not for the full Unicode one ("ß" upper-cases to "SS"). */
  lemma FilteredItemsIgnoresKeyCase(content: seq<ContentItem>, searchKey: string)
    ensures GetFilteredItems(content, ToUpperCase(searchKey)) == GetFilteredItems(content, searchKey)
  {
    ToLowerCaseOfUpperCase(searchKey);
    FilteredItemsCaseInsensitive(content, ToUpperCase(searchKey), searchKey);
  }

  /** Searching "aven" finds "Avengers"; searching "zzz" does not. */
  lemma FilteredItemsExample(poster: string)
    ensures var avengers := ContentItem("Avengers", poster);
            GetFilteredItems([avengers], "aven") == [avengers] && GetFilteredItems([avengers], "zzz") == []
  {
    var avengers := ContentItem("Avengers", poster);
    assert ToLowerCase("Avengers") == "avengers";
    assert ToLowerCase("aven") == "aven";
    assert "aven" <= "avengers";
    assert ToLowerCase("zzz") == "zzz";
    IncludesIffOccurs("avengers", "zzz");
    forall i: int ensures !OccursAt("avengers", "zzz", i) {
      if 0 <= i <= 5 {
        assert "avengers"[i..i + 3][0] == "avengers"[i] != 'z';
      }
    }
  }

  // ---------------------------------------------------------------------------
  // getNextIndex
  // ---------------------------------------------------------------------------

  /** The keys getNextIndex reacts to. */
  predicate IsArrowKey(keyStroke: string) {
    keyStroke == "ArrowRight" || keyStroke == "ArrowLeft" || keyStroke == "ArrowDown" || keyStroke == "ArrowUp"
  }

  /** `getNextIndex(keyStroke, currentIndex, columnCount)`: one step right or left, one row
      down or up; neither clamped to the grid nor wrapped around it. */
  function GetNextIndex(keyStroke: string, currentIndex: int, columnCount: int): int {
    if keyStroke == "ArrowRight" then currentIndex + 1
    else if keyStroke == "ArrowLeft" then currentIndex - 1
    else if keyStroke == "ArrowDown" then currentIndex + columnCount
    else if keyStroke == "ArrowUp" then currentIndex - columnCount
    else currentIndex
  }

  /** Opposite arrows undo each other. */
  lemma NextIndexOppositeArrows(currentIndex: int, columnCount: int)
    ensures GetNextIndex("ArrowUp", GetNextIndex("ArrowDown", currentIndex, columnCount), columnCount) == currentIndex
    ensures GetNextIndex("ArrowDown", GetNextIndex("ArrowUp", currentIndex, columnCount), columnCount) == currentIndex
    ensures GetNextIndex("ArrowLeft", GetNextIndex("ArrowRight", currentIndex, columnCount), columnCount) == currentIndex
    ensures GetNextIndex("ArrowRight", GetNextIndex("ArrowLeft", currentIndex, columnCount), columnCount) == currentIndex
  {
  }

  /** Any key other than the four arrows leaves the index where it is. */
  lemma NextIndexOtherKeys(keyStroke: string, currentIndex: int, columnCount: int)
    requires !IsArrowKey(keyStroke)
    ensures GetNextIndex(keyStroke, currentIndex, columnCount) == currentIndex
  {
  }

  /** Every key moves the index by one of 0, 1, -1, columnCount and -columnCount, and only
      an arrow key moves it. */
  lemma NextIndexDelta(keyStroke: string, currentIndex: int, columnCount: int)
    ensures var d := GetNextIndex(keyStroke, currentIndex, columnCount) - currentIndex;
            d == 0 || d == 1 || d == -1 || d == columnCount || d == -columnCount
    ensures GetNextIndex(keyStroke, currentIndex, columnCount) != currentIndex ==> IsArrowKey(keyStroke)
  {
  }

  /** Results are not clamped: from the top-left corner of a three-column grid, up and left
      both leave the grid, and down from index 2 lands on 5. */
  lemma NextIndexExamples()
    ensures GetNextIndex("ArrowDown", 2, 3) == 5
    ensures GetNextIndex("ArrowUp", 2, 3) == -1
    ensures GetNextIndex("ArrowLeft", 0, 3) == -1
    ensures GetNextIndex("Enter", 4, 3) == 4
  {
  }
}
