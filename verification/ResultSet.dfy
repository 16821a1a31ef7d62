/** src/index.c:209-305: the result set on the heap. Its mutex makes each method one atomic
    step; allocation failures are parameters. */
module ResultSet {
  import opened Common
  import opened Avl
  import opened PathTree
  import opened Results

  class ResultSet {
    var items: array<ChangeRecord>
    var count: nat
    var unchangedCount: nat
    var modifiedCount: nat
    var addedCount: nat
    var removedCount: nat
    var orderedRoot: PathTreeNode?
    ghost var layout: Layout

    /** The pointers form a tree. */
    ghost predicate Linked()
      reads this, items, Nodes(layout)
    {
      count <= items.Length && Separate(layout) && LaidOut(orderedRoot, layout)
    }

    ghost predicate Valid()
      reads this, items, Nodes(layout)
    {
      Linked() && Consistent(View())
    }

    ghost function View(): Report
      requires count <= items.Length
      reads this, items, Nodes(layout)
    {
      Report(items[..count], unchangedCount, modifiedCount, addedCount, removedCount, Shape(layout))
    }

    constructor ()
      ensures Valid() && fresh(items) && fresh(Nodes(layout))
      ensures View() == EMPTY
    {
      items := new ChangeRecord[0];
      count := 0;
      unchangedCount, modifiedCount, addedCount, removedCount := 0, 0, 0, 0;
      orderedRoot := null;
      layout := Empty;
    }

    method IncrementCounter(change: ChangeType)
      requires count <= items.Length
      modifies this`unchangedCount, this`modifiedCount, this`addedCount, this`removedCount
      ensures View() == Bump(old(View()), change)
    {
      assert allocated(Nodes(layout));
      match change
      case Unchanged => unchangedCount := unchangedCount + 1;
      case Modified => modifiedCount := modifiedCount + 1;
      case Added => addedCount := addedCount + 1;
      case Removed => removedCount := removedCount + 1;
    }

    /** The undo of `IncrementCounter`. */
    method DecrementCounter(change: ChangeType)
      requires count <= items.Length && Counter(View(), change) > 0
      modifies this`unchangedCount, this`modifiedCount, this`addedCount, this`removedCount
      ensures Bump(View(), change) == old(View())
    {
      assert allocated(Nodes(layout));
      match change
      case Unchanged => unchangedCount := unchangedCount - 1;
      case Modified => modifiedCount := modifiedCount - 1;
      case Added => addedCount := addedCount - 1;
      case Removed => removedCount := removedCount - 1;
    }

    /** The `realloc` at the start of a push into a full array. */
    method Grow(growOk: bool) returns (ok: bool)
      requires count == items.Length
      modifies this`items
      ensures ok == growOk
      ensures if ok then fresh(items) && count < items.Length else items == old(items)
      ensures items[..count] == old(items[..count])
    {
      assert allocated(Nodes(layout));
      if !growOk {
        return false;
      }
      var capacity := if items.Length == 0 then 64 else 2 * items.Length;
      var grown := new ChangeRecord[capacity];
      for i := 0 to count
        invariant items == old(items)
        invariant grown[..i] == items[..i]
      {
        grown[i] := items[i];
      }
      assert grown[..count] == items[..count];
      items := grown;
      return true;
    }

    /** Stores the record behind the others, counted but not yet in the tree. */
    method Append(record: ChangeRecord)
      requires Linked() && count < items.Length
      modifies this`count, this`unchangedCount, this`modifiedCount, this`addedCount, this`removedCount, items
      ensures Linked() && count == old(count) + 1
      ensures View() == var rs := old(View()); Bump(rs.(records := rs.records + [record]), record.change)
    {
      assert allocated(Nodes(layout));
      ghost var before := items[..count];
      items[count] := record;
      count := count + 1;
      assert items[..count] == before + [record];
      IncrementCounter(record.change);
    }

    /** Takes the last record back. */
    method Retract(change: ChangeType, ghost before: Report)
      requires Linked() && 0 < count && before.records == items[..count - 1]
      requires View() == Bump(before.(records := items[..count]), change)
      modifies this`count, this`unchangedCount, this`modifiedCount, this`addedCount, this`removedCount
      ensures Linked() && View() == before
    {
      assert allocated(Nodes(layout));
      count := count - 1;
      DecrementCounter(change);
    }

    /** Enters the last record into the ordered tree. */
    method Link(nodeOk: bool) returns (rc: Errno)
      requires Linked() && 0 < count && Within(Shape(layout), count - 1)
      modifies this`orderedRoot, this`layout, Nodes(layout)
      ensures Linked() && fresh(Nodes(layout) - old(Nodes(layout)))
      ensures rc == if nodeOk || Meets(items[..count], old(Shape(layout)), count - 1) then OK else ENOMEM
      ensures Shape(layout) == if rc == OK then Insert(items[..count], old(Shape(layout)), count - 1)
                               else old(Shape(layout))
    {
      WithinMore(Shape(layout), count - 1, count);
      WithinMore(Shape(layout), count - 1, items.Length);
      InsertReadsPrefix(items[..], items[..count], Shape(layout), count - 1, count);
      var root;
      ghost var g;
      rc, root, g := InsertNode(orderedRoot, items, count - 1, nodeOk, layout);
      assert allocated(Nodes(g));
      orderedRoot := root;
      layout := g;
    }

    /** A push into an array with room. */
    method PushInto(record: ChangeRecord, nodeOk: bool) returns (rc: Errno)
      requires Linked() && count < items.Length && Within(Shape(layout), count)
      modifies this, items, Nodes(layout)
      ensures Linked() && items == old(items) && fresh(Nodes(layout) - old(Nodes(layout)))
      ensures rc == if nodeOk || Meets(old(items[..count]) + [record], old(Shape(layout)), old(count)) then OK
                    else ENOMEM
      ensures View() == if rc == OK then Results.Push(old(View()), record) else old(View())
    {
      hide Insert, Meets, Within;
      assert allocated(Nodes(layout));
      ghost var before := View();
      Append(record);
      assert items[..count] == before.records + [record];
      rc := Link(nodeOk);
      assert allocated(Nodes(layout));
      if rc != OK {
        Retract(record.change, before);
      }
    }

    /** `result_set_push`: all or nothing. `growOk` and `nodeOk` say whether growing the array
        and allocating a tree node would succeed. */
    method Push(record: ChangeRecord, growOk: bool, nodeOk: bool) returns (rc: Errno)
      requires Valid()
      modifies this, items, Nodes(layout)
      ensures Valid() && (items == old(items) || fresh(items)) && fresh(Nodes(layout) - old(Nodes(layout)))
      ensures rc == if (growOk || old(count) < old(items.Length)) &&
                       (nodeOk || exists i :: 0 <= i < old(count) && old(items[..count])[i].path == record.path)
                    then OK else ENOMEM
      ensures View() == if rc == OK then Results.Push(old(View()), record) else old(View())
    {
      assert allocated(Nodes(layout));
      ghost var before := View();
      PushConsistent(before, record);
      MeetsIffPushed(before, record);
      WithinIffListed(before.tree, count);
      if count == items.Length {
        var ok := Grow(growOk);
        if !ok {
          return ENOMEM;
        }
      }
      assert allocated(Nodes(layout));
      rc := PushInto(record, nodeOk);
      assert forall o :: o in Nodes(layout) && o !in old(Nodes(layout)) ==> !old(allocated(o));
    }

    /** `result_set_note_type`. */
    method NoteType(change: ChangeType)
      requires Valid()
      modifies this
      ensures Valid() && items == old(items) && layout == old(layout)
      ensures View() == Bump(old(View()), change)
    {
      assert allocated(Nodes(layout));
      ghost var before := View();
      IncrementCounter(change);
      assert Consistent(View());
    }
  }
}
