/** The positional records of `main.py`: every building and antenna is a
    Python list of integers, with its 0-based input index appended last. */
module Records {
  import opened Errors

  type Record = seq<int>

  /** Python's `xs[i]`: a negative `i` counts from the end; outside
      `-len(xs) .. len(xs) - 1` the subscript raises IndexError (None). */
  function PyIndex<T>(xs: seq<T>, i: int): Option<T>
  {
    if 0 <= i < |xs| then Some(xs[i])
    else if -|xs| <= i < 0 then Some(xs[|xs| + i])
    else None
  }

  /** The position Python's `xs[i]` denotes in a list of length n. */
  function Resolve(n: nat, i: int): int
  {
    if i < 0 then n + i else i
  }

  // building = [Bx, By, Bl, Bc, index]
  function Bx(b: Record): int requires |b| > 0 { b[0] }
  function By(b: Record): int requires |b| > 1 { b[1] }
  /** The load weight: the penalty per unit of distance. */
  function Bl(b: Record): int requires |b| > 2 { b[2] }
  /** The connectivity: the multiplier of the antenna's speed. */
  function Bc(b: Record): int requires |b| > 3 { b[3] }

  // antenna = [Ar, Ac, index]; the sorts key on Ar (field 0) and Ac (field 1)
  function Ac(a: Record): int requires |a| > 1 { a[1] }
}
