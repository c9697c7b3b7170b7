/**
 * The opening single-choice activity (component `OpeningActivity`): one
 * question with choices A, B and C, a selection that locks once made, is
 * kept in browser storage under one key, comes back on the next mount and
 * is cleared by a reset.
 */
module OpeningActivity {
  import opened Wrappers

  datatype ChoiceKey = A | B | C

  /** The one storage key the activity uses. */
  const StorageKey: string := "opening-activity-choice"

  /** The designated right answer. */
  const CorrectAnswer: ChoiceKey := C

  datatype Choice = Choice(key: ChoiceKey, badge: string, text: string)

  /** The offered choices, in display order. */
  const Choices: seq<Choice> := [
    Choice(A, "A", "Vẫn là lực lượng trung tâm quyết định tiến bộ xã hội"),
    Choice(B, "B", "Sẽ bị thay thế dần bởi máy móc và AI"),
    Choice(C, "C", "Vẫn giữ vai trò quan trọng nhưng theo cách mới, gắn với công nghệ và tri thức")
  ]

  /** The string a key is stored as. */
  function KeyName(k: ChoiceKey): string
  {
    match k
    case A => "A"
    case B => "B"
    case C => "C"
  }

  /** The choice keys appear once each, shown with their own names as badges. */
  lemma ChoicesWellFormed()
    ensures |Choices| == 3
    ensures forall i, j :: 0 <= i < j < |Choices| ==> Choices[i].key != Choices[j].key
    ensures (set i | 0 <= i < |Choices| :: Choices[i].key) == {A, B, C}
    ensures forall i :: 0 <= i < |Choices| ==> Choices[i].badge == KeyName(Choices[i].key)
  {
    assert Choices[0].key == A && Choices[1].key == B && Choices[2].key == C;
  }

  /** A stored string names a key only when it is exactly "A", "B" or "C". */
  function ParseKey(s: string): (r: Option<ChoiceKey>)
    ensures r.Some? ==> KeyName(r.value) == s
    ensures r.None? ==> forall k :: KeyName(k) != s
  {
    if s == "A" then Some(A)
    else if s == "B" then Some(B)
    else if s == "C" then Some(C)
    else None
  }

  /** Parsing the stored name of a key gives the key back. */
  lemma ParseKeyName(k: ChoiceKey)
    ensures ParseKey(KeyName(k)) == Some(k)
  {
  }

  /** The selection a mount restores from the stored entries. */
  function Restored(items: map<string, string>): (r: Option<ChoiceKey>)
    ensures r.Some? ==> StorageKey in items && items[StorageKey] == KeyName(r.value)
    ensures r.None? ==> StorageKey !in items || forall k :: KeyName(k) != items[StorageKey]
  {
    if StorageKey in items then ParseKey(items[StorageKey]) else None
  }

  /** Round trip: after storing a key, a mount restores that key. */
  lemma RestoredAfterSelect(items: map<string, string>, k: ChoiceKey)
    ensures Restored(items[StorageKey := KeyName(k)]) == Some(k)
  {
    ParseKeyName(k);
  }

  /** After the key is removed, a mount restores nothing. */
  lemma RestoredAfterReset(items: map<string, string>)
    ensures Restored(items - {StorageKey}) == None
  {
  }

  /** Entries under any other key do not affect what a mount restores. */
  lemma RestoredIgnoresOtherKeys(items: map<string, string>, key: string, value: string)
    requires key != StorageKey
    ensures Restored(items[key := value]) == Restored(items)
    ensures Restored(items - {key}) == Restored(items)
  {
    assert StorageKey in items[key := value] <==> StorageKey in items;
    assert StorageKey in items ==> items[key := value][StorageKey] == items[StorageKey];
    assert StorageKey in items - {key} <==> StorageKey in items;
  }

  /** The line of feedback under the choices. */
  datatype Feedback = Prompt | Right | Wrong(chosen: ChoiceKey)

  function FeedbackFor(selected: Option<ChoiceKey>): (f: Feedback)
    ensures f == Prompt <==> selected == None
    ensures f == Right <==> selected == Some(CorrectAnswer)
    ensures f.Wrong? ==> selected == Some(f.chosen) && f.chosen != CorrectAnswer
  {
    match selected
    case None => Prompt
    case Some(k) => if k == CorrectAnswer then Right else Wrong(k)
  }

  /** Browser storage: string values by string key, kept across mounts. */
  class Storage {
    var items: map<string, string>

    constructor (initial: map<string, string>)
      ensures items == initial
    {
      items := initial;
    }

    method GetItem(key: string) returns (v: Option<string>)
      ensures v.Some? <==> key in items
      ensures v.Some? ==> v.value == items[key]
    {
      v := if key in items then Some(items[key]) else None;
    }

    method SetItem(key: string, value: string)
      modifies this
      ensures items == old(items)[key := value]
    {
      items := items[key := value];
    }

    method RemoveItem(key: string)
      modifies this
      ensures items == old(items) - {key}
    {
      items := items - {key};
    }
  }

  class Activity {
    const store: Storage
    var selected: Option<ChoiceKey>

    /** Mounting: start unselected, then take the stored value if it names a key. */
    constructor Mount(store: Storage)
      ensures this.store == store
      ensures selected == Restored(store.items)
    {
      this.store := store;
      selected := None;
      new;
      var saved := store.GetItem(StorageKey);
      if saved.Some? && ParseKey(saved.value).Some? {
        selected := ParseKey(saved.value);
      }
    }

    /**
     * Picking a choice (offered only while nothing is selected): records it
     * and stores its name under the activity's key, and under no other key.
     */
    method HandleSelect(k: ChoiceKey)
      requires selected == None
      modifies this, store
      ensures selected == Some(k)
      ensures store.items == old(store.items)[StorageKey := KeyName(k)]
      // Restates the map equation above key by key: no other entry is touched.
      ensures forall key :: key != StorageKey ==>
                (key in store.items <==> key in old(store.items)) &&
                (key in store.items ==> store.items[key] == old(store.items)[key])
    {
      selected := Some(k);
      store.SetItem(StorageKey, KeyName(k));
    }

    /** Resetting: clears the selection and removes the activity's key, and no other key. */
    method HandleReset()
      modifies this, store
      ensures selected == None
      ensures store.items == old(store.items) - {StorageKey}
      // Restates the map equation above key by key: no other entry is touched.
      ensures forall key :: key != StorageKey ==>
                (key in store.items <==> key in old(store.items)) &&
                (key in store.items ==> store.items[key] == old(store.items)[key])
    {
      selected := None;
      store.RemoveItem(StorageKey);
    }

    function Feedback(): (f: Feedback)
      reads this
      ensures f == Right <==> selected == Some(CorrectAnswer)
      ensures f == Prompt <==> selected == None
    {
      FeedbackFor(selected)
    }
  }

  /**
   * Select, then mount again against the same storage: the new mount comes
   * back with the chosen key.
   */
  method SelectThenRemount(store: Storage, k: ChoiceKey) returns (restored: Option<ChoiceKey>)
    modifies store
    ensures restored == Some(k)
    ensures store.items == old(store.items)[StorageKey := KeyName(k)]
  {
    var first := new Activity.Mount(store);
    if first.selected != None {
      first.HandleReset();
    }
    first.HandleSelect(k);
    var second := new Activity.Mount(store);
    RestoredAfterSelect(old(store.items) - {StorageKey}, k);
    restored := second.selected;
  }

  /**
   * Reset twice, then mount again: both resets leave the same storage, and
   * the new mount comes back unselected.
   */
  method ResetTwiceThenRemount(store: Storage) returns (restored: Option<ChoiceKey>)
    modifies store
    ensures restored == None
    ensures store.items == old(store.items) - {StorageKey}
  {
    var first := new Activity.Mount(store);
    first.HandleReset();
    var once := store.items;
    first.HandleReset();
    assert store.items == once;
    var second := new Activity.Mount(store);
    restored := second.selected;
  }
}
