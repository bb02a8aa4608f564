/** Keys, and the values, storage names and threads, of which the protocols need nothing but equality. */
module Names {
  datatype Key = Key(text: string)
  type Value(==, !new)
  type Label(==, !new)                  // the name of a storage
  type Tid = nat
  type Address = nat
}
