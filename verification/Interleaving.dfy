/** What the models of the lock-free containers share. */
module Interleaving {

  type Tid = int

  /** Items are positive. */
  type Node = int

  const GHOST: Node := 0
  const NULL: Node := -1

  /** Every other number is a thread. */
  const NOBODY: Tid := -1

  datatype Counted = Counted(counter: nat, item: Node)

  /** Who has an item: its user, the thread that pushes or pops it, or the container. */
  datatype Place = Free | Held(thread: Tid) | Queued
}
