/** Moving bytes (`kservice.c`). */
module KService {

  /** The memory with `n` bytes at `dest` replaced by those that were at `src`. */
  function Moved<T>(mem: seq<T>, dest: nat, src: nat, n: nat): seq<T>
    requires dest + n <= |mem| && src + n <= |mem|
  {
    mem[..dest] + mem[src..src + n] + mem[dest + n..]
  }

  /** One more byte at the front of the part that has been moved. */
  lemma MoveDown<T>(mem: seq<T>, dest: nat, src: nat, left: nat, n: nat)
    requires 0 < left <= n && src <= dest && dest + n <= |mem|
    ensures var m := Moved(mem, dest + left, src + left, n - left);
      m[src + left - 1] == mem[src + left - 1]
      && m[dest + left - 1 := mem[src + left - 1]] == Moved(mem, dest + left - 1, src + left - 1, n - left + 1)
  {
  }

  /** One more byte behind the part that has been moved. */
  lemma MoveUp<T>(mem: seq<T>, dest: nat, src: nat, done: nat, n: nat)
    requires done < n && dest + n <= |mem| && src + n <= |mem| && (dest <= src || src + n <= dest)
    ensures var m := Moved(mem, dest, src, done);
      m[src + done] == mem[src + done] && m[dest + done := mem[src + done]] == Moved(mem, dest, src, done + 1)
  {
  }

  /** `rt_memmove` within one memory: where the areas overlap, the bytes are moved from the end that
      would be overwritten first. */
  method MemMove<T>(mem: array<T>, dest: nat, src: nat, n: nat)
    requires dest + n <= mem.Length && src + n <= mem.Length
    modifies mem
    ensures mem[..] == Moved(old(mem[..]), dest, src, n)
  {
    hide Moved;
    ghost var was := mem[..];
    MoveNothing(was, dest, src, n);
    var tmp, s, left := dest, src, n;
    if src < dest && dest < src + n {
      tmp, s := dest + n, src + n;
      while left != 0
        invariant 0 <= left <= n && tmp == dest + left && s == src + left
        invariant mem[..] == Moved(was, dest + left, src + left, n - left)
      {
        MoveDown(was, dest, src, left, n);
        left := left - 1;
        s, tmp := s - 1, tmp - 1;
        assert mem[s] == mem[..][s];
        mem[tmp] := mem[s];
      }
    } else {
      while left != 0
        invariant 0 <= left <= n && tmp == dest + (n - left) && s == src + (n - left)
        invariant mem[..] == Moved(was, dest, src, n - left)
      {
        MoveUp(was, dest, src, n - left, n);
        left := left - 1;
        assert mem[s] == mem[..][s];
        mem[tmp] := mem[s];
        tmp, s := tmp + 1, s + 1;
      }
    }
  }

  lemma MoveNothing<T>(mem: seq<T>, dest: nat, src: nat, n: nat)
    requires dest + n <= |mem| && src + n <= |mem|
    ensures Moved(mem, dest, src, 0) == mem && Moved(mem, dest + n, src + n, 0) == mem
  {
  }
}
