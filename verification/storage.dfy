/** Browser storage, abstracted: each key holds a blob that either is the empty string,
    is text `JSON.parse` rejects, or parses to a value of the store's own shape. */
module Storage {

  /** What `JSON.parse(localStorage.getItem(key))` makes of one stored string. */
  datatype Blob<T> = EmptyText | Malformed | Json(value: T)

  /** A key-value store whose values, once parsed, have shape `T`. */
  type Store<T> = map<string, Blob<T>>

  /** `!localStorage.getItem(key)`: nothing stored under `key`, or the empty string. */
  predicate IsBlank<T>(s: Store<T>, key: string) {
    key !in s || s[key].EmptyText?
  }

  /** `localStorage.setItem(key, JSON.stringify(v))`; JSON text is never empty. */
  function Write<T>(s: Store<T>, key: string, v: T): (s': Store<T>)
    ensures key in s' && s'[key] == Json(v) && !IsBlank(s', key)
    ensures forall k :: k != key ==> (k in s' <==> k in s)
    ensures forall k :: k in s && k != key ==> s'[k] == s[k]
  {
    s[key := Json(v)]
  }
}
