/**
 * The scrolling menu list: up to twenty labelled rows of 20 pixels each,
 * one of them chosen. Choosing a row scrolls the list so that the chosen
 * row sits in the middle of the viewport where possible, clamped at the
 * top and at the end of the content.
 */
module ListWidget {
  import opened Geometry
  import opened RustStr

  const ITEM_HEIGHT: nat := 20
  const SCROLL_WIDTH: nat := 10
  const ITEM_CAPACITY: nat := 20
  const LABEL_CAPACITY: nat := 20

  /** One row: its label, where it is drawn, its size and whether it is chosen. */
  datatype ListItem = ListItem(text: string, position: Point, size: Size, isChoose: bool)

  /** `content_height`: the rows stacked. */
  function ContentHeight(count: nat): nat {
    count * ITEM_HEIGHT
  }

  /**
   * `offset_by_choose`: where the list's top is drawn when row `index` is
   * chosen, for a list at `position` with a viewport `height` pixels tall.
   */
  function OffsetByChoose(position: Point, height: nat, count: nat, index: nat): (r: Point)
    ensures r.x == position.x
    ensures ContentHeight(count) < height ==> r == position
    ensures ContentHeight(count) >= height ==>
      position.y - (ContentHeight(count) - height) <= r.y <= position.y
    ensures index * ITEM_HEIGHT <= height / 2 ==> r == position
  {
    if ContentHeight(count) < height then position
    else
      var lastItemCanShowY := ContentHeight(count) - height;
      var itemY := index * ITEM_HEIGHT;
      if itemY > height / 2 then
        if itemY > lastItemCanShowY + height / 2 then Point(position.x, position.y - lastItemCanShowY)
        else Point(position.x, position.y - (itemY - height / 2))
      else position
  }

  /** The three regimes of the offset: top, centred on the chosen row, clamped at the end. */
  lemma OffsetRegimes(position: Point, height: nat, count: nat, index: nat)
    requires ContentHeight(count) >= height
    ensures var itemY, last := index * ITEM_HEIGHT, ContentHeight(count) - height;
      var r := OffsetByChoose(position, height, count, index);
      (itemY <= height / 2 ==> r == position) &&
      (itemY > last + height / 2 ==> r.y == position.y - last) &&
      (height / 2 < itemY <= last + height / 2 ==> r.y == position.y - (itemY - height / 2))
  {
  }

  /** In a viewport of at least two rows, the chosen row is drawn wholly inside it. */
  lemma ChosenRowVisible(position: Point, height: nat, count: nat, index: nat)
    requires index < count && height >= 2 * ITEM_HEIGHT
    ensures var top := OffsetByChoose(position, height, count, index).y + index * ITEM_HEIGHT;
      position.y <= top && top + ITEM_HEIGHT <= position.y + height
  {
  }

  class ListWidget {
    var position: Point
    var offsetPosition: Point
    var size: Size
    var chooseIndex: nat
    var items: seq<ListItem>

    ghost predicate Valid()
      reads this
    {
      |items| <= ITEM_CAPACITY && chooseIndex <= |items|
    }

    /** `item_position`: row `index` below the list's current offset. */
    function ItemPosition(index: nat): (p: Point)
      reads this
      ensures p.x == OffsetByChoose(position, size.height, |items|, chooseIndex).x
    {
      var offset := OffsetByChoose(position, size.height, |items|, chooseIndex);
      Point(offset.x, offset.y + index * ITEM_HEIGHT)
    }

    /**
     * `ListWidget::new`: one row per label, stacked from `position`, each as
     * wide as the list minus the scroll bar; nothing chosen yet, index 0.
     */
    constructor (position: Point, size: Size, labels: seq<string>)
      requires |labels| <= ITEM_CAPACITY && size.width >= SCROLL_WIDTH
      requires forall i :: 0 <= i < |labels| ==> Utf8Len(labels[i]) <= LABEL_CAPACITY
      ensures Valid()
      ensures this.position == position && offsetPosition == position && this.size == size && chooseIndex == 0
      ensures |items| == |labels|
      ensures forall i :: 0 <= i < |items| ==>
        items[i] == ListItem(labels[i], Point(position.x, position.y + i * ITEM_HEIGHT), Size(size.width - SCROLL_WIDTH, ITEM_HEIGHT), false)
    {
      var itemSize := Size(size.width - SCROLL_WIDTH, ITEM_HEIGHT);
      var listItems: seq<ListItem> := [];
      for index := 0 to |labels|
        invariant |listItems| == index
        invariant forall i :: 0 <= i < index ==>
          listItems[i] == ListItem(labels[i], Point(position.x, position.y + i * ITEM_HEIGHT), itemSize, false)
      {
        listItems := listItems + [ListItem(labels[index], Point(position.x, position.y + index * ITEM_HEIGHT), itemSize, false)];
      }
      this.position := position;
      offsetPosition := position;
      this.size := size;
      chooseIndex := 0;
      items := listItems;
    }

    /**
     * `choose`: an index past the row count changes nothing; otherwise only
     * that row is chosen (none for the index equal to the count) and every
     * row moves to its place under the new offset.
     */
    method Choose(index: nat)
      requires Valid()
      modifies this
      ensures Valid()
      ensures index > |old(items)| ==> chooseIndex == old(chooseIndex) && items == old(items) && offsetPosition == old(offsetPosition)
      ensures position == old(position) && size == old(size) && |items| == |old(items)|
      ensures index <= |old(items)| ==>
        chooseIndex == index &&
        offsetPosition == OffsetByChoose(position, size.height, |items|, index) &&
        forall j :: 0 <= j < |items| ==>
          items[j] == old(items[j]).(isChoose := j == index, position := ItemPosition(j))
      ensures index <= |old(items)| ==>
        forall j :: 0 <= j < |items| ==> items[j].position == Point(offsetPosition.x, offsetPosition.y + j * ITEM_HEIGHT)
    {
      if index > |items| {
        return;
      }
      var chosen: seq<ListItem> := [];
      for i := 0 to |items|
        invariant |chosen| == i
        invariant forall j :: 0 <= j < i ==> chosen[j] == items[j].(isChoose := j == index)
      {
        chosen := chosen + [items[i].(isChoose := i == index)];
      }
      ghost var before := items;
      items := chosen;
      chooseIndex := index;
      offsetPosition := OffsetByChoose(position, size.height, |items|, chooseIndex);
      var positions: seq<Point> := [];
      for i := 0 to |items|
        invariant |positions| == i
        invariant forall j :: 0 <= j < i ==> positions[j] == ItemPosition(j)
      {
        positions := positions + [ItemPosition(i)];
      }
      var placed: seq<ListItem> := [];
      for i := 0 to |items|
        invariant |placed| == i
        invariant forall j :: 0 <= j < i ==> placed[j] == items[j].(position := positions[j])
      {
        placed := placed + [items[i].(position := positions[i])];
      }
      assert forall j :: 0 <= j < |items| ==> positions[j] == Point(offsetPosition.x, offsetPosition.y + j * ITEM_HEIGHT);
      items := placed;
      assert forall j :: 0 <= j < |items| ==> items[j] == before[j].(isChoose := j == index, position := ItemPosition(j));
    }
  }
}
