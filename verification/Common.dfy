/** Values and streams shared by the transfer modules. */
module Common {
  newtype byte = x: int | 0 <= x < 256

  type Bytes = seq<byte>

  datatype Option<+T> = None | Some(value: T)

  function Min(a: int, b: int): (m: int) {
    if a <= b then a else b
  }

  function Max(a: int, b: int): (m: int) {
    if a >= b then a else b
  }

  lemma SliceOfSlice<T>(s: seq<T>, from: nat, to: nat, i: nat, j: nat)
    requires from <= to <= |s| && i <= j <= to - from
    ensures s[from..to][i..j] == s[from + i..from + j]
  {
    forall k | 0 <= k < j - i
      ensures s[from..to][i..j][k] == s[from + i..from + j][k]
    {
    }
  }

  /** steps * (maxRetries + 1): the requests that `steps` successes can take when at most maxRetries
      failures in a row are borne before each of them. */
  ghost function Turns(steps: nat, maxRetries: nat): (requests: nat) {
    if steps == 0 then 0 else Turns(steps - 1, maxRetries) + maxRetries + 1
  }

  lemma {:induction false} TurnsClosedForm(steps: nat, maxRetries: nat)
    ensures Turns(steps, maxRetries) == steps * (maxRetries + 1)
  {
    if steps > 0 {
      TurnsClosedForm(steps - 1, maxRetries);
    }
  }

  lemma {:induction false} TurnsGrow(steps: nat, more: nat, maxRetries: nat)
    requires steps < more
    ensures Turns(steps, maxRetries) + maxRetries + 1 <= Turns(more, maxRetries)
  {
    if steps < more - 1 {
      TurnsGrow(steps, more - 1, maxRetries);
    }
  }

  /** A binary input stream that is read front to back. A stream with `full` set returns as many
      bytes as were asked for while it has them; any other stream may return fewer, but returns an
      empty result for a non-empty request only at its end. */
  class InputStream {
    const data: Bytes
    const full: bool
    var pos: nat

    ghost predicate Valid()
      reads this
    {
      pos <= |data|
    }

    /** The bytes that have not been read yet. */
    function Rest(): Bytes
      requires Valid()
      reads this
    {
      data[pos..]
    }

    constructor (data: Bytes, full: bool)
      ensures Valid() && this.data == data && this.full == full && pos == 0
    {
      this.data, this.full, pos := data, full, 0;
    }

    method Read(n: nat) returns (bytes: Bytes)
      requires Valid()
      modifies this
      ensures Valid()
      ensures old(pos) <= pos && bytes == data[old(pos)..pos] && |bytes| <= n
      ensures old(Rest()) == bytes + Rest()
      ensures n > 0 && old(Rest()) != [] ==> bytes != []
      ensures full ==> |bytes| == Min(n, old(|Rest()|))
    {
      var count := Min(n, |data| - pos);
      if !full && count > 1 {
        count :| 1 <= count <= Min(n, |data| - pos);
      }
      bytes := data[pos..pos + count];
      pos := pos + count;
    }
  }
}
