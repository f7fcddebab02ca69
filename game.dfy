/** The content of a round: echoes (statements tagged true or false), the
    fixed bank they are drawn from, and the two roles. */
module Game {

  /** An echo: its text and whether it is true. */
  datatype Echo = Echo(text: string, isTrue: bool)

  datatype Role = Whisperer | Explorer

  /** The name a role has on the wire (`ROLE:<name>`). */
  function RoleName(r: Role): string
  {
    match r
    case Whisperer => "Whisperer"
    case Explorer => "Explorer"
  }

  /** The number of echoes in the bank. */
  const BankSize: nat := 6

  /** The echo bank, by position: three true and three false statements,
      the true ones at the even positions. */
  function BankEcho(i: nat): (e: Echo)
    requires i < BankSize
    ensures e.isTrue <==> i % 2 == 0
  {
    match i
    case 0 => Echo("The stars speak only to those who listen.", true)
    case 1 => Echo("The world was flat before the Great Turn.", false)
    case 2 => Echo("Magic once flowed through rivers like water.", true)
    case 3 => Echo("Books can whisper only to Whisperers.", false)
    case 4 => Echo("Truth is hidden in the third shelf of the East Wing.", true)
    case _ => Echo("Only lies can open the final door.", false)
  }

  /** `sum(1 for e in echoes if e[1])`. */
  function CountTrue(echoes: seq<Echo>): (n: nat)
    ensures n <= |echoes|
  {
    if echoes == [] then 0
    else CountTrue(echoes[..|echoes| - 1]) + (if echoes[|echoes| - 1].isTrue then 1 else 0)
  }

  /** A triple the round accepts: three echoes, exactly two of them true. */
  predicate IsTriple(echoes: seq<Echo>)
  {
    |echoes| == 3 && CountTrue(echoes) == 2
  }

  /** `[i for i, e in enumerate(echoes) if e[1] == truth]`: the positions,
      in increasing order, of the echoes whose truth value is `truth`. */
  function Indices(echoes: seq<Echo>, truth: bool): (r: seq<nat>)
    ensures forall k :: 0 <= k < |r| ==> r[k] < |echoes| && echoes[r[k]].isTrue == truth
    ensures forall i :: 0 <= i < |echoes| && echoes[i].isTrue == truth ==> i in r
  {
    if echoes == [] then []
    else
      var n: nat := |echoes| - 1;
      var p := echoes[..n];
      var r := Indices(p, truth);
      assert forall j :: 0 <= j < n ==> p[j] == echoes[j];
      if echoes[n].isTrue == truth then r + [n] else r
  }

  /** `Indices` lists every echo with the given truth value once: as many
      positions as there are such echoes. */
  lemma {:induction false} IndicesCount(echoes: seq<Echo>, truth: bool)
    ensures |Indices(echoes, truth)| == if truth then CountTrue(echoes) else |echoes| - CountTrue(echoes)
  {
    if echoes != [] {
      IndicesCount(echoes[..|echoes| - 1], truth);
    }
  }

  /** The positions `Indices` lists are increasing. */
  lemma {:induction false} IndicesIncreasing(echoes: seq<Echo>, truth: bool)
    ensures forall k, l :: 0 <= k < l < |Indices(echoes, truth)| ==>
              Indices(echoes, truth)[k] < Indices(echoes, truth)[l]
  {
    if echoes != [] {
      IndicesIncreasing(echoes[..|echoes| - 1], truth);
    }
  }

  /** In an accepted triple there is exactly one false echo and two true
      ones, and the false one is at the position `Indices` reports. */
  lemma TripleShape(echoes: seq<Echo>)
    requires IsTriple(echoes)
    ensures |Indices(echoes, false)| == 1 && |Indices(echoes, true)| == 2
    ensures var f := Indices(echoes, false)[0];
            f < 3 && !echoes[f].isTrue &&
            forall i :: 0 <= i < 3 && i != f ==> echoes[i].isTrue
  {
    IndicesCount(echoes, false);
    IndicesCount(echoes, true);
  }
}
