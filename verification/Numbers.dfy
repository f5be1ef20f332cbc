/** Math.min, Math.max, and a condition as a count. */
module Numbers {
  function Min(a: int, b: int): int {
    if a < b then a else b
  }

  function Max(a: int, b: int): int {
    if a < b then b else a
  }

  function One(b: bool): nat {
    if b then 1 else 0
  }
}
