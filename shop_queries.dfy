/**
 * The read routes of shop.ts: the catalogue of items on sale, cheapest
 * first, and the badges a user holds, newest first.
 */
module ShopQueries {
  import opened Tables
  import opened Ranking

  /** An item row of GET /shop/items: its id and its columns. */
  datatype ItemRow = ItemRow(id: int, item: Item)

  /** The items on sale (WHERE is_available = 1), keyed by id. */
  function OnSale(items: map<int, Item>): (r: map<int, Item>)
    ensures forall k :: k in r <==> k in items && items[k].available
    ensures forall k :: k in r ==> r[k] == items[k]
  {
    map k | k in items && items[k].available :: items[k]
  }

  /** The major key of ORDER BY price ASC, negated so that the cheapest ranks first. */
  function Cheapness(id: int, it: Item): int
  {
    -it.price
  }

  /** Among items of the same price, the smaller id first. */
  function Junior(id: int, it: Item): int
  {
    -id
  }

  /** Ids of the items on sale, cheapest first (ORDER BY price ASC), ties by the smaller id. */
  function Cheapest(sale: map<int, Item>): (ids: seq<int>)
    ensures |ids| == |sale.Keys|
    ensures forall i :: 0 <= i < |ids| ==> ids[i] in sale
    ensures forall k :: k in sale ==> k in ids
    ensures forall i, j :: 0 <= i < j < |ids| ==> ids[i] != ids[j]
    ensures forall i, j :: 0 <= i < j < |ids| ==> sale[ids[i]].price <= sale[ids[j]].price
  {
    var ids := OrderIds(sale, Cheapness, Junior);
    CheapestFirst(sale, ids);
    ids
  }

  /** Ids ordered by the negated price are in ascending price. */
  lemma CheapestFirst(sale: map<int, Item>, ids: seq<int>)
    requires forall i :: 0 <= i < |ids| ==> ids[i] in sale
    requires forall i, j :: 0 <= i < j < |ids| ==> RowBefore(sale, ids[i], ids[j], Cheapness, Junior)
    ensures forall i, j :: 0 <= i < j < |ids| ==> sale[ids[i]].price <= sale[ids[j]].price
  {
    forall i, j | 0 <= i < j < |ids| ensures sale[ids[i]].price <= sale[ids[j]].price {
      assert RowBefore(sale, ids[i], ids[j], Cheapness, Junior);
    }
  }

  /** One row per id of `ids`, in that order. */
  function Rows(sale: map<int, Item>, ids: seq<int>): (r: seq<ItemRow>)
    requires forall i :: 0 <= i < |ids| ==> ids[i] in sale
    ensures |r| == |ids|
    ensures forall i :: 0 <= i < |r| ==> r[i].id == ids[i] && r[i].item == sale[ids[i]]
  {
    seq(|ids|, i requires 0 <= i < |ids| => ItemRow(ids[i], sale[ids[i]]))
  }

  /** GET /shop/items: every item on sale, in ascending order of price. */
  function Items(items: map<int, Item>): (r: seq<ItemRow>)
    ensures |r| == |OnSale(items).Keys|
    ensures forall i :: 0 <= i < |r| ==> r[i].id in items && r[i].item == items[r[i].id] && r[i].item.available
  {
    Rows(OnSale(items), Cheapest(OnSale(items)))
  }

  /** The ids of a listing, in the order they are listed. */
  function ItemIds(r: seq<ItemRow>): (ids: seq<int>)
    ensures |ids| == |r|
    ensures forall i :: 0 <= i < |r| ==> ids[i] == r[i].id
  {
    seq(|r|, i requires 0 <= i < |r| => r[i].id)
  }

  /**
   * The catalogue lists exactly the items on sale, each once, and a
   * cheaper item never comes after a dearer one.
   */
  lemma ItemsCheapestFirst(items: map<int, Item>)
    ensures var r := Items(items);
            && (forall k :: k in items && items[k].available <==> k in ItemIds(r))
            && (forall i, j :: 0 <= i < j < |r| ==> r[i].id != r[j].id)
            && (forall i, j :: 0 <= i < j < |r| ==> r[i].item.price <= r[j].item.price)
  {
    var sale := OnSale(items);
    var r := Items(items);
    assert ItemIds(r) == Cheapest(sale);
  }

  /** An item taken off sale disappears from the catalogue; nothing else does. */
  lemma WithdrawnItemHidden(items: map<int, Item>, k: int)
    requires k in items
    ensures var after := items[k := items[k].(available := false)];
            && k !in ItemIds(Items(after))
            && forall j :: j != k ==> (j in ItemIds(Items(after)) <==> j in ItemIds(Items(items)))
  {
    var after := items[k := items[k].(available := false)];
    ItemsCheapestFirst(items);
    ItemsCheapestFirst(after);
  }

  /** The positions of `user`'s badges in the badge table, keyed by position. */
  function Held(badges: seq<Badge>, user: int): (r: map<int, Badge>)
    ensures forall i :: i in r <==> 0 <= i < |badges| && badges[i].user == user
    ensures forall i :: i in r ==> r[i] == badges[i]
  {
    map i | 0 <= i < |badges| && badges[i].user == user :: badges[i]
  }

  /** The major key of ORDER BY obtained_at DESC. */
  function Obtained(i: int, b: Badge): int
  {
    b.obtainedAt
  }

  /** Among badges obtained at the same time, the later row first. */
  function Position(i: int, b: Badge): int
  {
    i
  }

  /** Positions of the user's badges, newest first. */
  function NewestBadges(held: map<int, Badge>): (ids: seq<int>)
    ensures |ids| == |held.Keys|
    ensures forall i :: 0 <= i < |ids| ==> ids[i] in held
    ensures forall k :: k in held ==> k in ids
    ensures forall i, j :: 0 <= i < j < |ids| ==> held[ids[i]].obtainedAt >= held[ids[j]].obtainedAt
  {
    OrderIds(held, Obtained, Position)
  }

  /** The badges at the positions `ids`, in that order. */
  function Listed(held: map<int, Badge>, ids: seq<int>): (r: seq<Badge>)
    requires forall i :: 0 <= i < |ids| ==> ids[i] in held
    ensures |r| == |ids|
    ensures forall i :: 0 <= i < |r| ==> r[i] == held[ids[i]]
  {
    seq(|ids|, i requires 0 <= i < |ids| => held[ids[i]])
  }

  /**
   * GET /shop/badges/:userId: the user's badges, most recently obtained
   * first (ORDER BY obtained_at DESC), ties by the later row. The id is
   * passed to SQLite unparsed; one that is not an integer (`None`) matches
   * no row.
   */
  function Badges(badges: seq<Badge>, userId: Option<int>): (r: seq<Badge>)
    ensures userId.None? ==> r == []
    ensures userId.Some? ==> |r| == |Held(badges, userId.value).Keys|
    ensures forall i :: 0 <= i < |r| ==> r[i] in badges && userId == Some(r[i].user)
  {
    if userId.None? then []
    else
      var held := Held(badges, userId.value);
      Listed(held, NewestBadges(held))
  }

  /** Every badge the user holds is listed, newest first. */
  lemma BadgesNewestFirst(badges: seq<Badge>, user: int)
    ensures var r := Badges(badges, Some(user));
            && (forall b :: b in badges && b.user == user ==> b in r)
            && (forall i, j :: 0 <= i < j < |r| ==> r[i].obtainedAt >= r[j].obtainedAt)
  {
    var held := Held(badges, user);
    var ids := NewestBadges(held);
    var r := Badges(badges, Some(user));
    assert r == Listed(held, ids);
    forall b | b in badges && b.user == user ensures b in r {
      var k :| 0 <= k < |badges| && badges[k] == b;
      assert k in held;
      var i :| 0 <= i < |ids| && ids[i] == k;
      assert r[i] == b;
    }
  }
}
