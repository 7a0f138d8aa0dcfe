/** Where a record lives: a block and a slot on that block. */
module RowIDs {
  datatype RowID = RowID(block: nat, local: nat)
}
