/** ztd::color (include/color.hpp, src/color.cpp): the preset ANSI colour
    codes, looked up by index, by enumerator or by name, with the reset
    code as the fallback, and a colour object storing one code. */
module Colors {
  /** COLOR_COUNT */
  const ColorCount: nat := 19

  /** COLOR_RESET */
  const Reset: string := "\U{1B}[0;0m"

  /** color_index: the code of each preset colour. */
  const CodeTable: seq<string> := [
    Reset,
    "\U{1B}[37m", "\U{1B}[90m", "\U{1B}[30m", "\U{1B}[31m", "\U{1B}[32m",
    "\U{1B}[33m", "\U{1B}[34m", "\U{1B}[35m", "\U{1B}[36m",
    "\U{1B}[1;37m", "\U{1B}[1;02m", "\U{1B}[1;30m", "\U{1B}[1;31m", "\U{1B}[1;32m",
    "\U{1B}[1;33m", "\U{1B}[1;34m", "\U{1B}[1;35m", "\U{1B}[1;36m"]

  /** color_name_index as the initializers are written: the missing comma
      after "b_cyan" joins it with the next literal, so the last of the
      COLOR_COUNT entries is "b_cyanbold". */
  const NameTableAsWritten: seq<string> := [
    "none", "white", "gray", "black", "red", "green", "orange", "blue", "magenta", "cyan",
    "b_white", "b_lightgray", "b_gray", "b_red", "b_green", "b_yellow", "b_blue", "b_magenta",
    "b_cyanbold"]

  /** color_name_index as its documentation lists it: the enumerators'
      names. */
  const NameTable: seq<string> := [
    "none", "white", "gray", "black", "red", "green", "orange", "blue", "magenta", "cyan",
    "b_white", "b_lightgray", "b_gray", "b_red", "b_green", "b_yellow", "b_blue", "b_magenta",
    "b_cyan"]

  /** color::color_name */
  datatype ColorName =
    | None | White | Gray | Black | Red | Green | Orange | Blue | Magenta | Cyan
    | BoldWhite | BoldLightGray | BoldGray | BoldRed | BoldGreen | BoldYellow | BoldBlue | BoldMagenta | BoldCyan

  /** The value of an enumerator. */
  function Ordinal(cm: ColorName): (r: nat)
    ensures r < ColorCount
  {
    match cm
    case None => 0
    case White => 1
    case Gray => 2
    case Black => 3
    case Red => 4
    case Green => 5
    case Orange => 6
    case Blue => 7
    case Magenta => 8
    case Cyan => 9
    case BoldWhite => 10
    case BoldLightGray => 11
    case BoldGray => 12
    case BoldRed => 13
    case BoldGreen => 14
    case BoldYellow => 15
    case BoldBlue => 16
    case BoldMagenta => 17
    case BoldCyan => 18
  }

  /** getColorCode(index): the reset code for an index past the table. */
  function CodeAt(index: nat): (r: string)
    ensures index >= ColorCount ==> r == Reset
    ensures index < ColorCount ==> r == CodeTable[index]
  {
    if index >= ColorCount then Reset else CodeTable[index]
  }

  /** getColorCode(color_name) */
  function CodeOf(cm: ColorName): (r: string)
    ensures r == CodeAt(Ordinal(cm))
  {
    CodeTable[Ordinal(cm)]
  }

  /** The first entry of `table` from `from` on equal to `name`, or
      |table| if there is none. */
  function IndexOf(table: seq<string>, name: string, from: nat): (r: nat)
    requires from <= |table|
    ensures from <= r <= |table|
    ensures r < |table| ==> table[r] == name
    ensures forall i :: from <= i < r ==> table[i] != name
    decreases |table| - from
  {
    if from == |table| then |table|
    else if table[from] == name then from
    else IndexOf(table, name, from + 1)
  }

  /** getColorCode(string) over the name table `table`: the code of the
      first colour so named, the reset code for any other name. */
  function CodeNamed(table: seq<string>, name: string): string
    requires |table| == ColorCount
  {
    var i := IndexOf(table, name, 0);
    if i < ColorCount then CodeAt(i) else Reset
  }

  /** The loop of getColorCode(string). */
  method GetColorCode(name: string) returns (r: string)
    ensures r == CodeNamed(NameTable, name)
  {
    for i := 0 to ColorCount
      invariant IndexOf(NameTable, name, i) == IndexOf(NameTable, name, 0)
    {
      if NameTable[i] == name {
        return CodeAt(i);
      }
    }
    return Reset;
  }

  // ---------------------------------------------------------------------
  // Properties

  /** The default colour is the reset code. */
  lemma {:induction false} NoneIsReset()
    ensures CodeOf(None) == Reset
  {
  }

  /** No two preset colours share a name. */
  lemma {:induction false} NamesDistinct()
    ensures forall i, j :: 0 <= i < j < ColorCount ==> NameTable[i] != NameTable[j]
  {
    forall i, j | 0 <= i < j < ColorCount
      ensures NameTable[i] != NameTable[j]
    {
    }
  }

  /** Looking a colour up by its own name gives the colour's code; a name
      that is no colour's gives the reset code. */
  lemma {:induction false} NamedLookup(name: string)
    ensures name !in NameTable ==> CodeNamed(NameTable, name) == Reset
    ensures forall cm :: NameTable[Ordinal(cm)] == name ==> CodeNamed(NameTable, name) == CodeOf(cm)
  {
    NamesDistinct();
  }

  /** The colour object: `color_code` is the code it stores. */
  class Color {
    var colorCode: string

    /** color(): the code of none. */
    constructor ()
      ensures colorCode == CodeOf(None) && colorCode == Reset
    {
      colorCode := CodeOf(None);
    }

    /** color(color_name) */
    constructor Of(cm: ColorName)
      ensures colorCode == CodeOf(cm)
    {
      colorCode := CodeOf(cm);
    }

    /** color(name) */
    constructor Named(name: string)
      ensures colorCode == CodeNamed(NameTable, name)
    {
      var c := GetColorCode(name);
      colorCode := c;
    }

    /** setColor(color_name) */
    method SetColor(cm: ColorName)
      modifies this
      ensures colorCode == CodeOf(cm)
    {
      colorCode := CodeOf(cm);
    }

    /** setColor(name) */
    method SetColorNamed(name: string)
      modifies this
      ensures colorCode == CodeNamed(NameTable, name)
    {
      colorCode := GetColorCode(name);
    }

    /** code() */
    function Code(): (r: string)
      reads this
      ensures r == colorCode
    {
      colorCode
    }
  }

  // ---------------------------------------------------------------------
  // The name table as written

  /** As written, "b_cyan" names no colour: it gives the reset code instead
      of bold cyan. */
  lemma {:induction false} BoldCyanAsWritten()
    ensures CodeNamed(NameTableAsWritten, "b_cyan") == Reset
    ensures CodeOf(BoldCyan) != Reset
  {
    assert "b_cyan" !in NameTableAsWritten by {
      forall i | 0 <= i < ColorCount
        ensures NameTableAsWritten[i] != "b_cyan"
      {
        var a := NameTableAsWritten[i];
        if |a| == 6 {
          assert a[0] != 'b' || a[2] != 'c';
        }
      }
    }
    assert CodeOf(BoldCyan)[|CodeOf(BoldCyan)| - 2] == '6';
  }

  /** A name met for the first time at `k` is found at `k`. */
  lemma {:induction false} FirstEntry(table: seq<string>, k: nat, from: nat)
    requires from <= k < |table|
    requires forall i :: from <= i < k ==> table[i] != table[k]
    ensures IndexOf(table, table[k], from) == k
    decreases k - from
  {
    if from < k {
      FirstEntry(table, k, from + 1);
    }
  }

  /** As written, the table agrees with the intended one but for its last
      entry, which is longer than every other name. */
  lemma {:induction false} AsWrittenEntries()
    ensures forall i :: 0 <= i < ColorCount - 1 ==> NameTableAsWritten[i] == NameTable[i]
    ensures forall i :: 0 <= i < ColorCount - 1 ==> |NameTableAsWritten[i]| != |NameTableAsWritten[ColorCount - 1]|
  {
    assert NameTableAsWritten[..ColorCount - 1] == NameTable[..ColorCount - 1];
  }

  /** As written, the names before the last are found where they stand,
      and so is the joined last name. */
  lemma {:induction false} AsWrittenIndex(k: nat)
    requires k < ColorCount
    ensures IndexOf(NameTableAsWritten, NameTableAsWritten[k], 0) == k
  {
    AsWrittenEntries();
    NamesDistinct();
    forall i | 0 <= i < k
      ensures NameTableAsWritten[i] != NameTableAsWritten[k]
    {
      if k < ColorCount - 1 {
        assert NameTable[i] != NameTable[k];
      }
    }
    FirstEntry(NameTableAsWritten, k, 0);
  }

  /** As written, every colour but bold cyan is still found by its own
      name, and bold cyan only by the joined name "b_cyanbold". */
  lemma {:induction false} NamedLookupAsWritten(cm: ColorName)
    ensures cm != BoldCyan ==> CodeNamed(NameTableAsWritten, NameTable[Ordinal(cm)]) == CodeOf(cm)
    ensures CodeNamed(NameTableAsWritten, "b_cyanbold") == CodeOf(BoldCyan)
  {
    var k := Ordinal(cm);
    AsWrittenEntries();
    AsWrittenIndex(k);
    AsWrittenIndex(ColorCount - 1);
  }

  /** With the intended table every colour is found by its name. */
  lemma {:induction false} NameRoundTrip(cm: ColorName)
    ensures CodeNamed(NameTable, NameTable[Ordinal(cm)]) == CodeOf(cm)
  {
    NamedLookup(NameTable[Ordinal(cm)]);
  }
}
