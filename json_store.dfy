/** A JSON file holding a list of records (chips.json, users.json): absent,
    present but unreadable (an I/O error, malformed JSON, or the literal `null`,
    all of which the controllers read as an empty list), or a stored list. */
module JsonStore {

  datatype Store<T> = Absent | Unreadable | Stored(items: seq<T>)

  /** The list a reader that treats every failure as an empty list obtains. */
  function ItemsOrEmpty<T>(s: Store<T>): (r: seq<T>)
    ensures s.Stored? ==> r == s.items
    ensures !s.Stored? ==> r == []
  {
    if s.Stored? then s.items else []
  }

  /** A loader that writes `defaults` when the file is absent and returns them. */
  function LoadOrSeed<T>(s: Store<T>, defaults: seq<T>): (r: (seq<T>, Store<T>))
    ensures s.Absent? ==> r == (defaults, Stored(defaults))
    ensures !s.Absent? ==> r == (ItemsOrEmpty(s), s)
  {
    match s
    case Absent => (defaults, Stored(defaults))
    case Unreadable => ([], s)
    case Stored(items) => (items, s)
  }

  /** Loading through LoadOrSeed a second time reads back what the first load returned. */
  lemma {:induction false} LoadOrSeedStable<T>(s: Store<T>, defaults: seq<T>)
    requires !s.Unreadable?
    ensures LoadOrSeed(LoadOrSeed(s, defaults).1, defaults) == LoadOrSeed(s, defaults)
  {
    if s.Absent? {
      assert LoadOrSeed(s, defaults).1 == Stored(defaults);
    }
  }
}
