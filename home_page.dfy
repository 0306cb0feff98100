/**
 * The `Home` component of the shopping-list overview: its `shoppingLists`
 * state, the `isFirstRender` ref, the two effects that load and persist the
 * state, and the three handlers that replace the state with a new sequence.
 *
 * Browser storage is a ghost slot `stored` for the single shopping-list key:
 * `None` stands for "nothing stored" (`getLocalStorage` returns `undefined`).
 * The value read at mount is passed in and required to be what the slot holds.
 * The random UUID of a new list is passed in as well.
 */
module HomePage {
  import opened ListText
  import opened ShoppingLists

  datatype Option<T> = None | Some(value: T)

  class Home {
    /** The `shoppingLists` state. */
    var lists: seq<ListRecord>
    /** The `isFirstRender` ref. */
    var firstRender: bool
    /** What browser storage holds under the shopping-list key. */
    ghost var stored: Option<seq<ListRecord>>

    /** Storage mirrors the state: it holds exactly the current sequence, or still nothing while the sequence is empty. */
    ghost predicate Mirrored()
      reads this
    {
      stored == Some(lists) || (stored == None && lists == [])
    }

    /**
     * Before the mount effects the state is the initial empty array; after
     * them, storage mirrors the state.
     */
    ghost predicate Valid()
      reads this
    {
      && (firstRender ==> lists == [])
      && (!firstRender ==> Mirrored())
    }

    /** The first render: `useState([])` and `useRef(true)`, with storage as the browser has it. */
    constructor (ghost initial: Option<seq<ListRecord>>)
      ensures Valid()
      ensures lists == [] && firstRender && stored == initial
    {
      lists := [];
      firstRender := true;
      stored := initial;
    }

    /** The load effect: adopts the stored array when storage returned one. */
    method LoadEffect(data: Option<seq<ListRecord>>) returns (updated: bool)
      modifies this`lists
      ensures updated == data.Some?
      ensures lists == if data.Some? then data.value else old(lists)
    {
      if data == None {
        return false;
      }
      lists := data.value;
      return true;
    }

    /** The persist effect: skipped once, on the first render; afterwards writes the whole sequence. */
    method PersistEffect()
      modifies this`firstRender, this`stored
      ensures !firstRender
      ensures stored == if old(firstRender) then old(stored) else Some(lists)
    {
      if firstRender {
        firstRender := false;
        return;
      }
      stored := Some(lists);
    }

    /**
     * The effects after the first render, in declaration order: the load
     * effect, then the persist effect (which only clears the first-render
     * flag); when the load effect set the state, the re-render runs the
     * persist effect again and writes the loaded array back.
     */
    method Mount(data: Option<seq<ListRecord>>)
      requires Valid() && firstRender
      requires data == stored
      modifies this
      ensures Valid() && !firstRender
      ensures lists == if data.Some? then data.value else []
      ensures stored == old(stored)
    {
      var updated := LoadEffect(data);
      PersistEffect();
      if updated {
        PersistEffect();
      }
    }

    /** `setShoppingLists(next)` followed by the re-render's persist effect. */
    method SetShoppingLists(next: seq<ListRecord>)
      requires Valid() && !firstRender
      modifies this
      ensures Valid() && !firstRender
      ensures lists == next && stored == Some(next)
    {
      lists := next;
      PersistEffect();
    }

    /**
     * `handleAddItem` with the typed name `value` and `freshId` from
     * `crypto.randomUUID()`, which is only drawn (and must only be fresh)
     * for a name that is not blank: a blank name leaves state and storage alone;
     * otherwise the record is appended and the new sequence stored.
     */
    method HandleAddItem(value: string, freshId: string)
      requires Valid() && !firstRender
      requires !IsBlank(value) ==> !HasId(lists, freshId)
      modifies this
      ensures Valid() && !firstRender
      ensures lists == Add(old(lists), freshId, value)
      ensures stored == if IsBlank(value) then old(stored) else Some(lists)
      ensures DistinctIds(old(lists)) ==> DistinctIds(lists)
    {
      if IsBlank(value) {
        return;
      }
      if DistinctIds(lists) {
        AddKeepsIdsDistinct(lists, freshId, value);
      }
      SetShoppingLists(Add(lists, freshId, value));
    }

    /** `handleEdit`: retitles every record with `id`; the new sequence is always stored. */
    method HandleEdit(id: string, title: string)
      requires Valid() && !firstRender
      modifies this
      ensures Valid() && !firstRender
      ensures lists == Rename(old(lists), id, title) && stored == Some(lists)
      ensures DistinctIds(lists) <==> DistinctIds(old(lists))
    {
      RenameKeepsIds(lists, id, title);
      SetShoppingLists(Rename(lists, id, title));
    }

    /** `handleDeleteItem`: drops every record with `id`; the new sequence is always stored. */
    method HandleDeleteItem(id: string)
      requires Valid() && !firstRender
      modifies this
      ensures Valid() && !firstRender
      ensures lists == Delete(old(lists), id) && stored == Some(lists)
      ensures DistinctIds(old(lists)) ==> DistinctIds(lists)
    {
      if DistinctIds(lists) {
        DeleteKeepsIdsDistinct(lists, id);
      }
      SetShoppingLists(Delete(lists, id));
    }
  }
}
