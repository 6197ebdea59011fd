/**
 * The lookup tables of helper/road.js: `AssignRoadMap`, which names the
 * box-drawing symbol of a four-slot signature, and `getRoadDetails`, which picks
 * the model file and rotation for a symbol.
 */
module RoadTables {
  import opened Wrappers

  /** One slot of a signature: Main road, Normal road, no road (`-`), or `undefined`. */
  datatype Slot = M | N | Dash | Undef

  /** The slots facing top, right, bottom and left, in that order. */
  type Signature = s: seq<Slot> | |s| == 4 witness [Dash, Dash, Dash, Dash]

  /** A cell symbol: a string, or `undefined` when the signature was not in the table. */
  datatype Symbol = Str(s: string) | Undefined

  /** How `join("")` prints a slot: `undefined` prints as nothing. */
  function SlotText(s: Slot): string
  {
    match s
    case M => "M"
    case N => "N"
    case Dash => "-"
    case Undef => ""
  }

  /** `roadVal.join("")`. */
  function Key(sig: Signature): string
  {
    SlotText(sig[0]) + SlotText(sig[1]) + SlotText(sig[2]) + SlotText(sig[3])
  }

  /**
   * `AssignRoadMap`: the symbol named by a signature.  The object is keyed by
   * `roadVal.join("")`; since every defined slot prints as one character of `MN-`,
   * keying by the four slots is the same table (`ParseKey`), and a signature holding
   * `undefined` prints too short to match any key (`UndefKeyIsShort`).
   */
  function AssignRoadMap(sig: Signature): Option<string>
  {
    match (sig[0], sig[1], sig[2], sig[3])
    case (M, M, M, M) => Some("╋")
    case (M, M, M, N) => Some("╊")
    case (M, N, M, M) => Some("╉")
    case (N, M, M, M) => Some("╈")
    case (M, M, N, M) => Some("╇")
    case (N, M, M, N) => Some("╆")
    case (N, N, M, M) => Some("╅")
    case (M, M, N, N) => Some("╄")
    case (M, N, N, M) => Some("╃")
    case (M, N, M, N) => Some("╂")
    case (N, M, N, M) => Some("┿")
    case (N, N, M, N) => Some("╁")
    case (M, N, N, N) => Some("╀")
    case (N, M, N, N) => Some("┾")
    case (N, N, N, M) => Some("┽")
    case (N, N, N, N) => Some("┼")
    case (Dash, M, M, M) => Some("┳")
    case (Dash, M, N, M) => Some("┯")
    case (Dash, M, M, N) => Some("┲")
    case (Dash, N, M, M) => Some("┱")
    case (Dash, N, M, N) => Some("┰")
    case (Dash, M, N, N) => Some("┮")
    case (Dash, N, N, M) => Some("┭")
    case (Dash, N, N, N) => Some("┬")
    case (M, Dash, M, M) => Some("┫")
    case (N, Dash, M, M) => Some("┪")
    case (M, Dash, N, M) => Some("┩")
    case (M, Dash, M, N) => Some("┨")
    case (N, Dash, M, N) => Some("┧")
    case (M, Dash, N, N) => Some("┦")
    case (N, Dash, N, M) => Some("┥")
    case (N, Dash, N, N) => Some("┤")
    case (M, M, Dash, M) => Some("┻")
    case (M, M, Dash, N) => Some("┺")
    case (M, N, Dash, M) => Some("┹")
    case (M, N, Dash, N) => Some("┸")
    case (N, M, Dash, M) => Some("┷")
    case (N, M, Dash, N) => Some("┶")
    case (N, N, Dash, M) => Some("┵")
    case (N, N, Dash, N) => Some("┴")
    case (M, M, M, Dash) => Some("┣")
    case (N, M, M, Dash) => Some("┢")
    case (M, M, N, Dash) => Some("┡")
    case (M, N, M, Dash) => Some("┠")
    case (N, N, M, Dash) => Some("┟")
    case (M, N, N, Dash) => Some("┞")
    case (N, M, N, Dash) => Some("┝")
    case (N, N, N, Dash) => Some("├")
    case (M, Dash, M, Dash) => Some("┃")
    case (M, Dash, N, Dash) => Some("╿")
    case (N, Dash, M, Dash) => Some("╽")
    case (N, Dash, N, Dash) => Some("│")
    case (Dash, M, Dash, M) => Some("━")
    case (Dash, M, Dash, N) => Some("╼")
    case (Dash, N, Dash, M) => Some("╾")
    case (Dash, N, Dash, N) => Some("─")
    case (M, M, Dash, Dash) => Some("┗")
    case (N, N, Dash, Dash) => Some("└")
    case (M, Dash, Dash, M) => Some("┛")
    case (N, Dash, Dash, N) => Some("┘")
    case (Dash, M, M, Dash) => Some("┏")
    case (Dash, N, N, Dash) => Some("┌")
    case (Dash, Dash, M, M) => Some("┓")
    case (Dash, Dash, N, N) => Some("┐")
    case _ => None
  }

  /** `AssignRoadMap[roadVal.join("")]`: `undefined` when the key is missing. */
  function Assign(sig: Signature): Symbol
  {
    match AssignRoadMap(sig)
    case Some(name) => Str(name)
    case None => Undefined
  }

  /** The number of slots that are not `-`. */
  function Arms(sig: Signature): nat
  {
    (if sig[0] != Dash then 1 else 0) + (if sig[1] != Dash then 1 else 0) +
    (if sig[2] != Dash then 1 else 0) + (if sig[3] != Dash then 1 else 0)
  }

  /**
   * The signatures the table names: no `undefined` slot, and either at least
   * three arms, a straight (two opposite arms), or a corner whose two arms are of
   * the same class.
   */
  predicate Named(sig: Signature)
  {
    Undef !in sig &&
    (Arms(sig) >= 3
     || (sig[1] == Dash && sig[3] == Dash && sig[0] != Dash && sig[2] != Dash)
     || (sig[0] == Dash && sig[2] == Dash && sig[1] != Dash && sig[3] != Dash)
     || (Arms(sig) == 2 && (sig[0] == Dash || sig[0] == sig[1] || sig[0] == sig[3])
                        && (sig[2] == Dash || sig[2] == sig[1] || sig[2] == sig[3])))
  }

  /**
   * The table names exactly the `Named` signatures: a signature with an
   * `undefined` slot, fewer than two arms, or a corner mixing Main and Normal
   * (such as `MN--`) gets `undefined`.
   */
  lemma AssignNamesExactly(sig: Signature)
    ensures Assign(sig).Str? <==> Named(sig)
  {
    assert Undef in sig <==> sig[0] == Undef || sig[1] == Undef || sig[2] == Undef || sig[3] == Undef;
  }

  /** The signature a key was printed from, when it has four printable characters. */
  function Parse(k: string): Option<Signature>
  {
    if |k| == 4 && forall i :: 0 <= i < 4 ==> k[i] in "MN-" then
      Some([ParseSlot(k[0]), ParseSlot(k[1]), ParseSlot(k[2]), ParseSlot(k[3])])
    else
      None
  }

  function ParseSlot(c: char): Slot
  {
    if c == 'M' then M else if c == 'N' then N else Dash
  }

  /**
   * A signature without `undefined` prints as four characters from which it can be
   * read back, so different signatures give different keys.
   */
  lemma ParseKey(sig: Signature)
    requires Undef !in sig
    ensures Parse(Key(sig)) == Some(sig)
  {
    assert forall s :: s != Undef ==> |SlotText(s)| == 1 && SlotText(s)[0] in "MN-" && ParseSlot(SlotText(s)[0]) == s;
    var k := Key(sig);
    assert k == [SlotText(sig[0])[0], SlotText(sig[1])[0], SlotText(sig[2])[0], SlotText(sig[3])[0]];
    assert Parse(k).value == sig;
  }

  /** A signature with an `undefined` slot prints as fewer than four characters, the length of every key. */
  lemma UndefKeyIsShort(sig: Signature)
    requires Undef in sig
    ensures |Key(sig)| < 4
  {
    assert sig[0] == Undef || sig[1] == Undef || sig[2] == Undef || sig[3] == Undef;
  }

  /** The symbol's characters. */
  function SymbolText(sym: Symbol): string
  {
    match sym
    case Str(s) => s
    case Undefined => "undefined"
  }

  /** `key.includes(str)`: `str` occurs in `key` as a contiguous substring. */
  function Includes(key: string, str: string): bool
    decreases |key|
  {
    if |str| <= |key| && key[..|str|] == str then true
    else if key == [] then false
    else Includes(key[1..], str)
  }

  /** A one-character string occurs in a key exactly when its character does. */
  lemma {:induction false} IncludesChar(key: string, c: char)
    ensures Includes(key, [c]) <==> c in key
    decreases |key|
  {
    if key != [] {
      assert key[..1] == [key[0]];
      if key[0] != c {
        IncludesChar(key[1..], c);
        assert key == [key[0]] + key[1..];
      }
    }
  }

  /** `roadUrls`, in the order `for (const key in …)` visits it. */
  const RoadUrls: seq<(string, string)> := [
    ("┃━", "../models/roads/tile-mainroad-straight.glb"),
    ("│─", "../models/roads/tile-road-straight.glb"),
    ("╿╽╼╾", "../models/roads/tile-road-to-mainroad.glb"),
    ("└┘┌┐", "../models/roads/tile-road-curve.glb"),
    ("┗┛┏┓", "../models/roads/tile-mainroad-curve.glb"),
    ("╋", "../models/roads/tile-mainroad-intersection.glb"),
    ("┼", "../models/roads/tile-road-intersection.glb"),
    ("╊╉╈╇", "../models/roads/tile-mainroad-road-intersection.glb"),
    ("╁╀┾┽", "../models/roads/tile-roads-mainroad-intersection.glb"),
    ("╂┿", "../models/roads/tile-road-mainroad-intersection.glb"),
    ("┯┨┷┠", "../models/roads/tile-road-mainroad-intersection-t.glb"),
    ("┰┥┸┝", "../models/roads/tile-mainroad-road-intersection-t.glb"),
    ("┳┫┻┣", "../models/roads/tile-mainroad-intersection-t.glb"),
    ("┬┤┴├", "../models/roads/tile-road-intersection-t.glb")
  ]

  /** `roadRotation`: the `y` rotation in degrees (`x` and `z` are always 0). */
  const RoadRotation: seq<(string, int)> := [
    ("┃│╿┏┌╋┼╂╀┳┬┰┯", 0),
    ("┣├━─┗└╾┝╇┠┿┽", 90),
    ("┻┴┛┘╽┸╉┷╁", 180),
    ("┫┤┓┐╼┥╈┨┾", 270)
  ]

  /** The value of the first key that includes `str`, or none. */
  function FirstMatch<V>(table: seq<(string, V)>, str: string): Option<V>
  {
    if table == [] then None
    else if Includes(table[0].0, str) then Some(table[0].1)
    else FirstMatch(table[1..], str)
  }

  /** The result of `getRoadDetails`: `null` where no key matched. */
  datatype Details = Details(modelUrl: Option<string>, rotation: Option<int>)

  /** One `for (const key in table)` search of `getRoadDetails`: the value of the first key including `str`. */
  method SearchKeys<V>(table: seq<(string, V)>, str: string) returns (found: Option<V>)
    ensures found == FirstMatch(table, str)
  {
    found := None;
    var i := 0;
    while i < |table|
      invariant 0 <= i <= |table|
      invariant FirstMatch(table, str) == FirstMatch(table[i..], str)
    {
      if Includes(table[i].0, str) {
        found := Some(table[i].1);
        break;
      }
      assert table[i..][1..] == table[i + 1..];
      i := i + 1;
    }
    if found.None? {
      assert FirstMatch(table, str) == None;
    }
  }

  /** `getRoadDetails(sign)`: both searches stop at the first key that includes the symbol. */
  method GetRoadDetails(sign: Symbol) returns (result: Details)
    ensures result == Details(FirstMatch(RoadUrls, SymbolText(sign)), FirstMatch(RoadRotation, SymbolText(sign)))
  {
    var str := SymbolText(sign);
    var modelUrl := SearchKeys(RoadUrls, str);
    var rotation := SearchKeys(RoadRotation, str);
    result := Details(modelUrl, rotation);
  }

  /** The details of a symbol, as `getRoadDetails` computes them. */
  function RoadDetails(sign: Symbol): Details
  {
    Details(FirstMatch(RoadUrls, SymbolText(sign)), FirstMatch(RoadRotation, SymbolText(sign)))
  }

  /** For a one-character symbol, the first match is the first key that contains it. */
  lemma {:induction false} MatchIsFirstContainingKey<V>(table: seq<(string, V)>, c: char, k: nat)
    requires k < |table| && c in table[k].0
    requires forall i :: 0 <= i < k ==> c !in table[i].0
    ensures FirstMatch(table, [c]) == Some(table[k].1)
  {
    IncludesChar(table[0].0, c);
    if k > 0 {
      MatchIsFirstContainingKey(table[1..], c, k - 1);
    }
  }

  /** A symbol that no key contains gets `null`. */
  lemma {:induction false} NoMatch<V>(table: seq<(string, V)>, c: char)
    requires forall i :: 0 <= i < |table| ==> c !in table[i].0
    ensures FirstMatch(table, [c]) == None
  {
    if table != [] {
      IncludesChar(table[0].0, c);
      NoMatch(table[1..], c);
    }
  }

  /** The main straights get the main-road straight model, turned 90 degrees when horizontal. */
  lemma StraightDetails()
    ensures RoadDetails(Str("┃")) == Details(Some("../models/roads/tile-mainroad-straight.glb"), Some(0))
    ensures RoadDetails(Str("━")) == Details(Some("../models/roads/tile-mainroad-straight.glb"), Some(90))
  {
    MatchIsFirstContainingKey(RoadUrls, '┃', 0);
    MatchIsFirstContainingKey(RoadUrls, '━', 0);
    MatchIsFirstContainingKey(RoadRotation, '┃', 0);
    MatchIsFirstContainingKey(RoadRotation, '━', 1);
  }

  /** An `undefined` symbol is searched for as the text "undefined", which no key includes. */
  lemma UndefinedDetails()
    ensures RoadDetails(Undefined) == Details(None, None)
  {
    assert forall i :: 0 <= i < |RoadUrls| ==> 'u' !in RoadUrls[i].0 by {
      UrlKeysLackU();
    }
    assert forall i :: 0 <= i < |RoadRotation| ==> 'u' !in RoadRotation[i].0;
    UndefinedMatchesNothing(RoadUrls);
    UndefinedMatchesNothing(RoadRotation);
  }

  lemma UrlKeysLackU()
    ensures forall i :: 0 <= i < |RoadUrls| ==> 'u' !in RoadUrls[i].0
  {
  }

  lemma {:induction false} UndefinedMatchesNothing<V>(table: seq<(string, V)>)
    requires forall i :: 0 <= i < |table| ==> 'u' !in table[i].0
    ensures FirstMatch(table, "undefined") == None
  {
    if table != [] {
      NotIncluded(table[0].0, "undefined");
      UndefinedMatchesNothing(table[1..]);
    }
  }

  /** A key that lacks the first character of a non-empty `str` does not include it. */
  lemma {:induction false} NotIncluded(key: string, str: string)
    requires str != [] && str[0] !in key
    ensures !Includes(key, str)
    decreases |key|
  {
    if |str| <= |key| {
      assert key[0] in key && key[..|str|][0] == key[0];
    }
    if key != [] {
      assert forall c :: c in key[1..] ==> c in key;
      NotIncluded(key[1..], str);
    }
  }

  /**
   * Twenty symbols of the table have no model file in `roadUrls`: the four junctions
   * with two Main and two Normal arms meeting at corners (`╆ ╅ ╄ ╃`) and the
   * sixteen three-way junctions whose through road changes from Main to Normal
   * (`┲ ┱ ┮ ┭ ┪ ┩ ┧ ┦ ┺ ┹ ┶ ┵ ┢ ┡ ┟ ┞`).
   */
  const Unmodelled: set<char> := {'╆', '╅', '╄', '╃', '┲', '┱', '┮', '┭', '┪', '┩',
                                  '┧', '┦', '┺', '┹', '┶', '┵', '┢', '┡', '┟', '┞'}

  /** They are added with a `null` model and a `null` rotation. */
  lemma UnmodelledJunctions()
    ensures forall c :: c in Unmodelled ==> RoadDetails(Str([c])) == Details(None, None)
  {
    forall c | c in Unmodelled
      ensures RoadDetails(Str([c])) == Details(None, None)
    {
      UnmodelledNotInUrls(c);
      UnmodelledNotInRotations(c);
      NoMatch(RoadUrls, c);
      NoMatch(RoadRotation, c);
    }
  }

  /** No key of `roadUrls` contains one of them. */
  lemma UnmodelledNotInUrls(c: char)
    requires c in Unmodelled
    ensures forall i :: 0 <= i < |RoadUrls| ==> c !in RoadUrls[i].0
  {
    NotInEarlyUrlKeys(c);
    NotInLateUrlKeys(c);
  }

  lemma NotInEarlyUrlKeys(c: char)
    requires c in Unmodelled || c == '╊'
    ensures forall i :: 0 <= i < 7 ==> c !in RoadUrls[i].0
  {
  }

  lemma NotInLateUrlKeys(c: char)
    requires c in Unmodelled
    ensures forall i :: 7 <= i < |RoadUrls| ==> c !in RoadUrls[i].0
  {
  }

  /** No key of `roadRotation` contains one of them either. */
  lemma UnmodelledNotInRotations(c: char)
    requires c in Unmodelled
    ensures forall i :: 0 <= i < |RoadRotation| ==> c !in RoadRotation[i].0
  {
    NotInRotationKey0(c);
    NotInRotationKey1(c);
    NotInRotationKey2(c);
    NotInRotationKey3(c);
  }

  lemma NotInRotationKey0(c: char)
    requires c in Unmodelled || c == '╊'
    ensures c !in RoadRotation[0].0
  {
  }

  lemma NotInRotationKey1(c: char)
    requires c in Unmodelled || c == '╊'
    ensures c !in RoadRotation[1].0
  {
  }

  lemma NotInRotationKey2(c: char)
    requires c in Unmodelled || c == '╊'
    ensures c !in RoadRotation[2].0
  {
  }

  lemma NotInRotationKey3(c: char)
    requires c in Unmodelled || c == '╊'
    ensures c !in RoadRotation[3].0
  {
  }

  /** `╊` has a model file but appears in no `roadRotation` key, so its rotation is `null`. */
  lemma RotationMissing()
    ensures RoadDetails(Str("╊")) == Details(Some("../models/roads/tile-mainroad-road-intersection.glb"), None)
  {
    NotInEarlyUrlKeys('╊');
    MatchIsFirstContainingKey(RoadUrls, '╊', 7);
    NotInRotationKey0('╊');
    NotInRotationKey1('╊');
    NotInRotationKey2('╊');
    NotInRotationKey3('╊');
    NoMatch(RoadRotation, '╊');
  }
}
