/**
 * What the components take from their surroundings: the signed-in user
 * (Firebase authentication is not modelled, only its result) and the
 * browser tab's `sessionStorage`, shared by every component.
 */
module Environment {
  import opened Wrappers

  /** A signed-in Firebase user, reduced to the one field the components read. */
  datatype User = User(uid: string)

  /** `user?.uid` is truthy. */
  predicate SignedIn(user: Option<User>)
  {
    user.Some? && user.value.uid != ""
  }

  /**
   * A value kept in session storage. `JSON.stringify` is left abstract: an
   * item is the record that was stringified, not its text.
   */
  datatype StoredItem =
    | SuggestionRecord(original: string, rewritten: string, fieldKey: string)
    | TailoredResumeData(parsedJson: string)

  /** `window.sessionStorage`: a mutable table from key to stored item. */
  class SessionStorage {
    var items: map<string, StoredItem>

    constructor (initial: map<string, StoredItem>)
      ensures items == initial
    {
      items := initial;
    }

    /** `sessionStorage.setItem(key, value)`: a later write replaces an earlier one. */
    method SetItem(key: string, value: StoredItem)
      modifies this
      ensures items == old(items)[key := value]
    {
      items := items[key := value];
    }

    /** `sessionStorage.removeItem(key)`: only that key is dropped. */
    method RemoveItem(key: string)
      modifies this
      ensures items == old(items) - {key}
    {
      items := items - {key};
    }
  }
}
