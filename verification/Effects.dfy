/** The ladder of effect classes shared by both generations of delegated authority. */
module Effects {

  type EffectClass = string

  const LADDER: seq<EffectClass> :=
    ["pure", "read_external", "write_reversible", "write_compensatable", "write_irreversible", "critical"]

  predicate Known(c: EffectClass) { c in LADDER }

  /** The place of a class on the ladder; an unknown class ranks above every known one. */
  function Rank(c: EffectClass): (r: nat)
    ensures r <= |LADDER| && (r < |LADDER| <==> Known(c))
    ensures Known(c) ==> LADDER[r] == c
  {
    if c == LADDER[0] then 0 else if c == LADDER[1] then 1 else if c == LADDER[2] then 2
    else if c == LADDER[3] then 3 else if c == LADDER[4] then 4 else if c == LADDER[5] then 5 else 6
  }
}
