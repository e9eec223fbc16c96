/** The queue the server keeps for every descriptor. All its uses are on the event-loop thread. */
module SharedQueues {
  import opened Options

  class SharedQueue<T> {
    var items: seq<T>

    constructor ()
      ensures items == []
    {
      items := [];
    }

    constructor WithItem(item: T)
      ensures items == [item]
    {
      items := [];
      new;
      PushBack(item);
    }

    /** The first item, left in the queue; None when there is none. */
    method Front() returns (item: Option<T>)
      ensures item == if items == [] then None else Some(items[0])
    {
      if items == [] {
        return None;
      }
      item := Some(items[0]);
    }

    /** Does nothing to an empty queue. */
    method PopFront()
      modifies this
      ensures items == if old(items) == [] then [] else old(items)[1..]
    {
      if items != [] {
        items := items[1..];
      }
    }

    method PushBack(item: T)
      modifies this
      ensures items == old(items) + [item]
    {
      items := items + [item];
    }

    method Empty() returns (b: bool)
      ensures b <==> items == []
    {
      b := items == [];
    }
  }
}
