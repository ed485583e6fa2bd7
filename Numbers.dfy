/** Small arithmetic shared by both components. */
module Numbers {
  function Min(a: nat, b: nat): nat
  {
    if a <= b then a else b
  }
}
