/** The keys the pickers' window keydown listeners react to; every other key is `OtherKey`. */
module Keys {

  datatype Key = ArrowDown | ArrowUp | Enter | Escape | OtherKey
}
