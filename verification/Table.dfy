/** The growing pointer tables of the JSON, header and route code: an array of `capacity`
    entries, `size` of them in use, doubled when full. */
module Tables {

  class Table<T(0)> {
    var items: array<T>
    var size: nat

    ghost predicate Valid()
      reads this
    {
      0 < items.Length && size <= items.Length
    }

    function Contents(): seq<T>
      reads this, items
      requires Valid()
    {
      items[..size]
    }

    constructor (capacity: nat)
      requires capacity > 0
      ensures Valid() && fresh(items) && Contents() == [] && items.Length == capacity
    {
      items := new T[capacity];
      size := 0;
    }

    /** Append, moving to an array of twice the capacity when the present one is full. */
    method Push(x: T)
      requires Valid()
      modifies this, items
      ensures Valid() && Contents() == old(Contents()) + [x]
      ensures if old(size) < old(items.Length) then items == old(items)
              else fresh(items) && items.Length == 2 * old(items.Length)
    {
      if items.Length == size {
        var bigger := new T[items.Length * 2];
        for i := 0 to size
          invariant items == old(items) && size == old(size) && items[..] == old(items[..])
          invariant bigger[..i] == items[..i]
        {
          bigger[i] := items[i];
        }
        items := bigger;
      }
      items[size] := x;
      size := size + 1;
    }
  }
}
