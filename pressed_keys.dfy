/** The pressed-key set both world drivers keep: a key-down event adds the key
    its name maps to, a key-up event deletes it, and a name that maps to no key
    changes nothing. Each driver has its own name-to-key mapping. */
module PressedKeys {
  import opened WorldTypes
  import OrderedSet

  /** The pressed keys after a key-down event naming `key`. */
  function Press(pressed: seq<Key>, key: Option<Key>): (r: seq<Key>)
    ensures key.None? ==> r == pressed
    ensures key.Some? ==> forall k :: k in r <==> k in pressed || k == key.value
    ensures key.Some? && key.value in pressed ==> r == pressed
    ensures OrderedSet.Distinct(pressed) ==> OrderedSet.Distinct(r)
  {
    match key
    case Some(k) => OrderedSet.Add(pressed, k)
    case None => pressed
  }

  /** The pressed keys after a key-up event naming `key`. */
  function Release(pressed: seq<Key>, key: Option<Key>): (r: seq<Key>)
    ensures key.None? ==> r == pressed
    ensures key.Some? ==> forall k :: k in r <==> k in pressed && k != key.value
  {
    match key
    case Some(k) => OrderedSet.Delete(pressed, k)
    case None => pressed
  }

  /** Pressing a key twice is the same as pressing it once. */
  lemma PressIdempotent(pressed: seq<Key>, key: Option<Key>)
    ensures Press(Press(pressed, key), key) == Press(pressed, key)
  {
  }

  /** A key-down followed by a key-up of the same key leaves that key released
      and every other key as it was. */
  lemma PressThenReleaseOthersUnchanged(pressed: seq<Key>, key: Key, other: Key)
    requires other != key
    ensures key !in Release(Press(pressed, Some(key)), Some(key))
    ensures other in Release(Press(pressed, Some(key)), Some(key)) <==> other in pressed
  {
  }

  /** Pressing and then releasing a key that was not held restores the pressed
      keys exactly, order included. */
  lemma PressThenRelease(pressed: seq<Key>, key: Option<Key>)
    requires key.Some? ==> key.value !in pressed
    ensures Release(Press(pressed, key), key) == pressed
  {
    if key.Some? {
      OrderedSet.AddThenDelete(pressed, key.value);
    }
  }
}
