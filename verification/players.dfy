/** The two colours (`Player` in board_type.js: Black is 1, White is -1). */
module Players {

  datatype Player = Black | White

  /** The number the source stores as a colour. */
  function Value(c: Player): int {
    if c == Black then 1 else -1
  }

  /** `Player.other`: the opposing colour, whose value is the negation. */
  function Other(c: Player): (o: Player)
    ensures o != c
    ensures Value(o) == -Value(c)
  {
    if Value(c) == 1 then White else Black
  }
}
