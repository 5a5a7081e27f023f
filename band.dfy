/**
 * The tape of BuK/TuringMachine.py (`Band`): a doubly linked list of cells,
 * each holding one symbol, that grows by a blank cell whenever the head asks
 * for a neighbour that is not there yet.
 */
module Band {
  import opened TuringSpec

  class Cell {
    var prev: Cell?
    var next: Cell?
    var symbol: Symbol

    constructor (prev: Cell?, next: Cell?, symbol: Symbol)
      ensures this.prev == prev && this.next == next && this.symbol == symbol
    {
      this.prev := prev;
      this.next := next;
      this.symbol := symbol;
    }

    /**
     * `get_next`: the right neighbour; when there is none, a new blank cell
     * linked back to this one becomes it. Nothing else on the tape changes.
     */
    method GetNext() returns (n: Cell)
      modifies this`next
      ensures next == n
      ensures old(next) != null ==> n == old(next)
      ensures old(next) == null ==> fresh(n) && n.prev == this && n.next == null && n.symbol == Blank
    {
      if next == null {
        next := new Cell(this, null, Blank);
      }
      n := next;
    }

    /**
     * `get_prev`: the left neighbour; when there is none, a new blank cell
     * linked forward to this one becomes it. Nothing else on the tape changes.
     */
    method GetPrev() returns (p: Cell)
      modifies this`prev
      ensures prev == p
      ensures old(prev) != null ==> p == old(prev)
      ensures old(prev) == null ==> fresh(p) && p.next == this && p.prev == null && p.symbol == Blank
    {
      if prev == null {
        prev := new Cell(null, this, Blank);
      }
      p := prev;
    }

    /** `get_symbol`. */
    method GetSymbol() returns (s: Symbol)
      ensures s == symbol
    {
      s := symbol;
    }

    /** `set_symbol`: only this cell's symbol changes. */
    method SetSymbol(s: Symbol)
      modifies this`symbol
      ensures symbol == s
    {
      symbol := s;
    }

    /**
     * `Band.__str__`: walk to the left end, then concatenate every symbol up
     * to the right end; whichever cell it is called on, the result is the
     * whole tape.
     */
    method ToString(ghost cells: seq<Cell>, ghost symbols: seq<Symbol>, ghost k: nat) returns (s: string)
      requires Linked(cells) && Holds(cells, symbols) && k < |cells| && cells[k] == this
      ensures s == Concat(symbols)
    {
      var temp: Cell? := this;
      ghost var i := k;
      while temp.prev != null
        invariant 0 <= i < |cells| && temp == cells[i]
        decreases i
      {
        assert cells[i].prev == if i == 0 then null else cells[i - 1];
        temp := temp.prev;
        i := i - 1;
      }
      s := "";
      while temp != null
        invariant 0 <= i <= |cells| && temp == (if i < |cells| then cells[i] else null)
        invariant s == Concat(symbols[..i])
        decreases |cells| - i
      {
        assert symbols[..i + 1][..i] == symbols[..i];
        assert cells[i].next == if i == |cells| - 1 then null else cells[i + 1];
        s := s + temp.symbol;
        temp := temp.next;
        i := i + 1;
      }
      assert symbols[..i] == symbols;
    }
  }

  /** The cells form one chain from left to right, without repetitions. */
  ghost predicate Linked(cells: seq<Cell>)
    reads cells
  {
    (forall i, j :: 0 <= i < j < |cells| ==> cells[i] != cells[j]) &&
    (forall i {:trigger cells[i].prev} :: 0 <= i < |cells| ==> cells[i].prev == if i == 0 then null else cells[i - 1]) &&
    (forall i {:trigger cells[i].next} :: 0 <= i < |cells| ==> cells[i].next == if i == |cells| - 1 then null else cells[i + 1])
  }

  /** The cells hold these symbols, in order. */
  ghost predicate Holds(cells: seq<Cell>, symbols: seq<Symbol>)
    reads cells
  {
    |cells| == |symbols| && forall i :: 0 <= i < |cells| ==> cells[i].symbol == symbols[i]
  }

  /**
   * Linking a new last cell behind the last cell of a chain gives a chain:
   * the cells before the old last one keep their links.
   */
  lemma LinkedSnoc(cs: seq<Cell>, c: Cell)
    requires |cs| >= 1 && c !in cs
    requires forall i, j :: 0 <= i < j < |cs| ==> cs[i] != cs[j]
    requires forall i {:trigger cs[i].prev} :: 0 <= i < |cs| ==> cs[i].prev == if i == 0 then null else cs[i - 1]
    requires forall i {:trigger cs[i].next} :: 0 <= i < |cs| - 1 ==> cs[i].next == cs[i + 1]
    requires cs[|cs| - 1].next == c && c.prev == cs[|cs| - 1] && c.next == null
    ensures Linked(cs + [c])
  {
    var cs' := cs + [c];
    forall i | 0 <= i < |cs'|
      ensures cs'[i].prev == if i == 0 then null else cs'[i - 1]
      ensures cs'[i].next == if i == |cs'| - 1 then null else cs'[i + 1]
    {
      if i < |cs| {
        assert cs'[i] == cs[i];
      } else {
        assert cs'[i] == c;
      }
      if 0 < i {
        assert cs'[i - 1] == cs[i - 1];
      }
    }
  }

  /** A chain's symbols extended by one cell's. */
  lemma HoldsSnoc(cs: seq<Cell>, symbols: seq<Symbol>, c: Cell)
    requires Holds(cs, symbols)
    ensures Holds(cs + [c], symbols + [c.symbol])
  {
  }

  /** Linking a new first cell in front of the first cell of a chain gives a chain. */
  lemma LinkedCons(p: Cell, cs: seq<Cell>)
    requires |cs| >= 1 && p !in cs
    requires forall i, j :: 0 <= i < j < |cs| ==> cs[i] != cs[j]
    requires forall i {:trigger cs[i].prev} :: 0 < i < |cs| ==> cs[i].prev == cs[i - 1]
    requires forall i {:trigger cs[i].next} :: 0 <= i < |cs| ==> cs[i].next == if i == |cs| - 1 then null else cs[i + 1]
    requires cs[0].prev == p && p.next == cs[0] && p.prev == null
    ensures Linked([p] + cs)
  {
    var cs' := [p] + cs;
    forall i | 0 <= i < |cs'|
      ensures cs'[i].prev == if i == 0 then null else cs'[i - 1]
      ensures cs'[i].next == if i == |cs'| - 1 then null else cs'[i + 1]
    {
      if 0 < i {
        assert cs'[i] == cs[i - 1];
      } else {
        assert cs'[i] == p;
      }
      if i < |cs| {
        assert cs'[i + 1] == cs[i];
      }
    }
  }

  /**
   * `get_prev` on the cell at index h of a chain: the chain gains a blank
   * cell in front when h is 0, and the new head cell is the one left of it.
   */
  method MoveLeft(ghost cs: seq<Cell>, ghost symbols: seq<Symbol>, ghost h: nat, c: Cell)
    returns (p: Cell, ghost cs': seq<Cell>, ghost symbols': seq<Symbol>, ghost h': nat)
    requires Linked(cs) && Holds(cs, symbols) && h < |cs| && cs[h] == c
    modifies c`prev
    ensures Linked(cs') && Holds(cs', symbols') && h' < |cs'| && cs'[h'] == p
    ensures h == 0 ==> fresh(p) && cs' == [p] + cs && symbols' == [Blank] + symbols && h' == 0
    ensures h > 0 ==> cs' == cs && symbols' == symbols && h' == h - 1
  {
    LinksAt(cs, h);
    p := c.GetPrev();
    if h == 0 {
      forall i | 0 <= i < |cs|
        ensures cs[i].next == if i == |cs| - 1 then null else cs[i + 1]
      {
        assert old(cs[i].next) == if i == |cs| - 1 then null else cs[i + 1];
      }
      LinkedCons(p, cs);
      cs', symbols', h' := [p] + cs, [Blank] + symbols, 0;
    } else {
      cs', symbols', h' := cs, symbols, h - 1;
    }
  }

  /**
   * `get_next` on the cell at index h of a chain: the chain gains a blank
   * cell at the end when h is the last index, and the new head cell is the
   * one right of it.
   */
  method MoveRight(ghost cs: seq<Cell>, ghost symbols: seq<Symbol>, ghost h: nat, c: Cell)
    returns (n: Cell, ghost cs': seq<Cell>, ghost symbols': seq<Symbol>)
    requires Linked(cs) && Holds(cs, symbols) && h < |cs| && cs[h] == c
    modifies c`next
    ensures Linked(cs') && Holds(cs', symbols') && h + 1 < |cs'| && cs'[h + 1] == n
    ensures h == |cs| - 1 ==> fresh(n) && cs' == cs + [n] && symbols' == symbols + [Blank]
    ensures h < |cs| - 1 ==> cs' == cs && symbols' == symbols
  {
    LinksAt(cs, h);
    n := c.GetNext();
    if h == |cs| - 1 {
      forall i | 0 <= i < |cs|
        ensures cs[i].prev == if i == 0 then null else cs[i - 1]
      {
        assert old(cs[i].prev) == if i == 0 then null else cs[i - 1];
      }
      LinkedSnoc(cs, n);
      HoldsSnoc(cs, symbols, n);
      cs', symbols' := cs + [n], symbols + [Blank];
    } else {
      cs', symbols' := cs, symbols;
    }
  }

  /**
   * `set_symbol` on the cell at index h of a chain: the links stay as they
   * are and only the symbol at h changes.
   */
  method Write(ghost cs: seq<Cell>, ghost symbols: seq<Symbol>, ghost h: nat, c: Cell, s: Symbol)
    requires Linked(cs) && Holds(cs, symbols) && h < |cs| && cs[h] == c
    modifies c`symbol
    ensures Linked(cs) && Holds(cs, symbols[h := s])
  {
    c.SetSymbol(s);
    forall i | 0 <= i < |cs|
      ensures cs[i].prev == if i == 0 then null else cs[i - 1]
      ensures cs[i].next == if i == |cs| - 1 then null else cs[i + 1]
      ensures cs[i].symbol == symbols[h := s][i]
    {
      assert old(cs[i].prev) == if i == 0 then null else cs[i - 1];
      assert old(cs[i].next) == if i == |cs| - 1 then null else cs[i + 1];
      assert i != h ==> cs[i] != c;
    }
  }

  /** The neighbours of the cell at index h of a chain. */
  lemma LinksAt(cs: seq<Cell>, h: nat)
    requires Linked(cs) && h < |cs|
    ensures cs[h].prev == if h == 0 then null else cs[h - 1]
    ensures cs[h].next == if h == |cs| - 1 then null else cs[h + 1]
  {
  }
}
