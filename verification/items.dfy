/** Shared vocabulary of the bot: optional values and the posts it fetches. */
module Items {

  /** Python's `None`-or-value, as used for `since_id` and for a missing response body. */
  datatype Option<+T> = None | Some(value: T)

  /** One fetched post: its numeric id and its text. */
  datatype Item = Item(id: int, text: string)

  /** The set of ids carried by a sequence of posts. */
  function IdsOf(items: seq<Item>): (ids: set<int>)
    ensures forall i :: 0 <= i < |items| ==> items[i].id in ids
    ensures forall x :: x in ids ==> exists i :: 0 <= i < |items| && items[i].id == x
  {
    set i | 0 <= i < |items| :: items[i].id
  }
}
