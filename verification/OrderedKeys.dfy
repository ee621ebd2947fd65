/** Walking the keys of an ordered map (`BTreeMap`) in ascending order. */
module OrderedKeys {

  method Any<T(==)>(s: set<T>) returns (x: T)
    requires s != {}
    ensures x in s
  {
    x :| x in s;
  }

  /** The next key. */
  method Least(s: set<int>) returns (least: int)
    requires s != {}
    ensures least in s && forall key :: key in s ==> least <= key
  {
    least := Any(s);
    var rest := s - {least};
    while rest != {}
      invariant rest <= s && least in s
      invariant forall key :: key in s && key !in rest ==> least <= key
      decreases |rest|
    {
      var key := Any(rest);
      if key < least { least := key; }
      rest := rest - {key};
    }
  }
}
