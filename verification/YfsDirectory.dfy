// Directories: their text form "name/inum/name/inum/...", the parser and the printer, and
// what the edits mean for the names.

module YfsDirectory {
  import opened DiskLayout

  type Name = seq<Byte>

  datatype Entry = Entry(name: Name, inum: nat)

  const MAX_INUM: nat := 0xffff_ffff_ffff_ffff

  const SLASH: Byte := 0x2f

  // ---- Printing ----

  function Digit10(d: nat): Byte
    requires d < 10
  {
    match d
    case 0 => 0x30 case 1 => 0x31 case 2 => 0x32 case 3 => 0x33 case 4 => 0x34
    case 5 => 0x35 case 6 => 0x36 case 7 => 0x37 case 8 => 0x38 case 9 => 0x39
  }

  // operator<< on an inum
  function Decimal(n: nat): (s: seq<Byte>)
    ensures s != []
  {
    if n < 10 then [Digit10(n)] else Decimal(n / 10) + [Digit10(n % 10)]
  }

  lemma {:induction false} DecimalLength(n: nat, k: nat)
    requires k > 0 && n < Pow10(k)
    ensures |Decimal(n)| <= k
  {
    if n >= 10 { DecimalLength(n / 10, k - 1); }
  }

  function Pow10(k: nat): nat {
    if k == 0 then 1 else 10 * Pow10(k - 1)
  }

  function PrintEntry(e: Entry): seq<Byte> {
    e.name + [SLASH] + Decimal(e.inum) + [SLASH]
  }

  function Print(es: seq<Entry>): seq<Byte> {
    if es == [] then [] else PrintEntry(es[0]) + Print(es[1..])
  }

  lemma {:induction false} PrintAppend(es: seq<Entry>, e: Entry)
    ensures Print(es + [e]) == Print(es) + PrintEntry(e)
  {
    if es == [] {
      assert es + [e] == [e];
      assert Print([e]) == PrintEntry(e) + Print([]);
    } else {
      assert (es + [e])[1..] == es[1..] + [e];
      PrintAppend(es[1..], e);
    }
  }

  // ---- Parsing ----

  datatype Line = Line(text: seq<Byte>, rest: seq<Byte>)

  // std::getline with '/' as delimiter
  function Getline(s: seq<Byte>): (l: Line)
    ensures |l.rest| <= |s| && (s != [] ==> |l.rest| < |s|)
    ensures SLASH !in l.text
  {
    if s == [] then Line([], [])
    else if s[0] == SLASH then Line([], s[1..])
    else var l := Getline(s[1..]); Line([s[0]] + l.text, l.rest)
  }

  predicate IsSpace(b: Byte) {
    b == 0x20 || 0x09 <= b <= 0x0d
  }

  predicate IsDigit(b: Byte) {
    0x30 <= b <= 0x39
  }

  function DigitOf(b: Byte): nat {
    if b == 0x30 then 0 else if b == 0x31 then 1 else if b == 0x32 then 2 else if b == 0x33 then 3 else if b == 0x34 then 4
    else if b == 0x35 then 5 else if b == 0x36 then 6 else if b == 0x37 then 7 else if b == 0x38 then 8 else 9
  }

  function SkipSpace(s: seq<Byte>): seq<Byte> {
    if s != [] && IsSpace(s[0]) then SkipSpace(s[1..]) else s
  }

  function DigitPrefix(s: seq<Byte>): (p: seq<Byte>)
    ensures forall i :: 0 <= i < |p| ==> IsDigit(p[i])
  {
    if s != [] && IsDigit(s[0]) then [s[0]] + DigitPrefix(s[1..]) else []
  }

  function Number(p: seq<Byte>): nat
    requires forall i :: 0 <= i < |p| ==> IsDigit(p[i])
  {
    if p == [] then 0 else 10 * Number(p[..|p| - 1]) + DigitOf(p[|p| - 1])
  }

  // operator>> into an unsigned 64-bit variable that holds was: nothing to read leaves the
  // variable as it is, no digits give 0, too large a number the largest one, and a minus
  // sign the number modulo 2^64.
  function ReadInum(s: seq<Byte>, was: nat): nat {
    var t := SkipSpace(s);
    if t == [] then was
    else
      var minus := t[0] == 0x2d;
      var p := DigitPrefix(if minus || t[0] == 0x2b then t[1..] else t);
      var n := Number(p);
      if n > MAX_INUM then MAX_INUM else if minus && n > 0 then MAX_INUM + 1 - n else n
  }

  // The entries of a directory string. The variable for the inum is declared outside the
  // loop and not initialised; finum is what it holds.
  function Parse(s: seq<Byte>, finum: nat): seq<Entry>
    decreases |s|
  {
    if s == [] then []
    else
      var line := Getline(s);
      var number := Getline(line.rest);
      var n := ReadInum(number.text, finum);
      [Entry(line.text, n)] + Parse(number.rest, n)
  }

  // ---- Round trip ----

  lemma DigitValue(d: nat)
    requires d < 10
    ensures IsDigit(Digit10(d)) && DigitOf(Digit10(d)) == d && Digit10(d) != SLASH
  {
  }

  lemma {:induction false} DecimalIsDigits(n: nat)
    ensures forall i :: 0 <= i < |Decimal(n)| ==> IsDigit(Decimal(n)[i])
    ensures SLASH !in Decimal(n)
    ensures Number(Decimal(n)) == n
  {
    DigitValue(n % 10);
    if n >= 10 {
      DecimalIsDigits(n / 10);
      NumberMore(Decimal(n / 10), n % 10);
    } else {
      NumberMore([], n);
      assert [] + [Digit10(n)] == [Digit10(n)];
    }
  }

  lemma NumberMore(p: seq<Byte>, d: nat)
    requires d < 10 && forall i :: 0 <= i < |p| ==> IsDigit(p[i])
    ensures forall i :: 0 <= i < |p| + 1 ==> IsDigit((p + [Digit10(d)])[i])
    ensures Number(p + [Digit10(d)]) == 10 * Number(p) + d
  {
    DigitValue(d);
    assert (p + [Digit10(d)])[..|p|] == p;
  }

  lemma {:induction false} AllDigits(s: seq<Byte>)
    requires forall i :: 0 <= i < |s| ==> IsDigit(s[i])
    ensures DigitPrefix(s) == s
  {
    if s != [] { AllDigits(s[1..]); }
  }

  lemma DigitFirst(b: Byte)
    requires IsDigit(b)
    ensures !IsSpace(b) && b != 0x2d && b != 0x2b
  {
  }

  lemma DecimalRoundTrip(n: nat, finum: nat)
    requires n <= MAX_INUM
    ensures ReadInum(Decimal(n), finum) == n
  {
    DecimalIsDigits(n);
    AllDigits(Decimal(n));
    DigitFirst(Decimal(n)[0]);
  }

  lemma {:induction false} GetlineStops(a: seq<Byte>, b: seq<Byte>)
    requires SLASH !in a
    ensures Getline(a + [SLASH] + b) == Line(a, b)
  {
    if a == [] {
      assert a + [SLASH] + b == [SLASH] + b;
    } else {
      assert (a + [SLASH] + b)[1..] == a[1..] + [SLASH] + b;
      GetlineStops(a[1..], b);
      assert [a[0]] + a[1..] == a;
    }
  }

  // ---- What any string means ----

  lemma {:induction false} GetlineAll(a: seq<Byte>)
    requires SLASH !in a
    ensures Getline(a) == Line(a, [])
  {
    if a != [] {
      GetlineAll(a[1..]);
      assert [a[0]] + a[1..] == a;
    }
  }

  /** The texts between the slashes are read in pairs, a name and a number; at the end of the
      string the number, or both slashes, may be missing. */
  lemma ParseMeans(a: seq<Byte>, b: seq<Byte>, rest: seq<Byte>, finum: nat)
    requires SLASH !in a && SLASH !in b
    ensures Parse(a + [SLASH] + (b + [SLASH] + rest), finum) == [Entry(a, ReadInum(b, finum))] + Parse(rest, ReadInum(b, finum))
    ensures Parse(a + [SLASH] + b, finum) == [Entry(a, ReadInum(b, finum))]
    ensures a != [] ==> Parse(a, finum) == [Entry(a, finum)]
    ensures Parse([], finum) == []
  {
    GetlineStops(a, b + [SLASH] + rest);
    GetlineStops(b, rest);
    GetlineStops(a, b);
    GetlineAll(b);
    GetlineAll(a);
    assert Getline([]) == Line([], []) && ReadInum([], finum) == finum;
  }

  lemma {:induction false} PrefixStops(p: seq<Byte>, rest: seq<Byte>)
    requires forall i :: 0 <= i < |p| ==> IsDigit(p[i])
    requires rest == [] || !IsDigit(rest[0])
    ensures DigitPrefix(p + rest) == p
  {
    if p == [] {
      assert p + rest == rest;
    } else {
      assert (p + rest)[1..] == p[1..] + rest;
      PrefixStops(p[1..], rest);
      assert [p[0]] + p[1..] == p;
    }
  }

  lemma {:induction false} SpacesSkipped(spaces: seq<Byte>, t: seq<Byte>)
    requires (forall i :: 0 <= i < |spaces| ==> IsSpace(spaces[i])) && (t == [] || !IsSpace(t[0]))
    ensures SkipSpace(spaces + t) == t
  {
    if spaces == [] {
      assert spaces + t == t;
    } else {
      assert (spaces + t)[1..] == spaces[1..] + t;
      SpacesSkipped(spaces[1..], t);
    }
  }

  /** How operator>> reads: spaces before the number and anything that is no digit behind it
      do not matter; a number beyond 64 bits gives the largest one; a minus sign counts from
      2^64 down; no digits give 0; and a string of spaces leaves the variable as it is. */
  lemma ReadMeans(spaces: seq<Byte>, n: nat, rest: seq<Byte>, finum: nat)
    requires forall i :: 0 <= i < |spaces| ==> IsSpace(spaces[i])
    requires rest == [] || !IsDigit(rest[0])
    ensures ReadInum(spaces + (Decimal(n) + rest), finum) == if n <= MAX_INUM then n else MAX_INUM
    ensures ReadInum(spaces + ([0x2b] + (Decimal(n) + rest)), finum) == if n <= MAX_INUM then n else MAX_INUM
    ensures ReadInum(spaces + ([0x2d] + (Decimal(n) + rest)), finum)
            == if n == 0 then 0 else if n <= MAX_INUM then 0x1_0000_0000_0000_0000 - n else MAX_INUM
    ensures rest != [] && !IsSpace(rest[0]) && rest[0] != 0x2b && rest[0] != 0x2d ==> ReadInum(spaces + rest, finum) == 0
    ensures ReadInum(spaces, finum) == finum
  {
    var p := Decimal(n);
    DecimalIsDigits(n);
    DigitFirst(p[0]);
    PrefixStops(p, rest);
    SpacesSkipped(spaces, p + rest);
    SignRead([0x2b], spaces, p + rest);
    SignRead([0x2d], spaces, p + rest);
    SpacesSkipped(spaces, []);
    assert spaces + [] == spaces;
    if rest != [] && !IsSpace(rest[0]) {
      SpacesSkipped(spaces, rest);
      assert DigitPrefix(rest) == [] && Number([]) == 0;
    }
  }

  lemma SignRead(sign: seq<Byte>, spaces: seq<Byte>, t: seq<Byte>)
    requires |sign| == 1 && !IsSpace(sign[0]) && forall i :: 0 <= i < |spaces| ==> IsSpace(spaces[i])
    ensures SkipSpace(spaces + (sign + t)) == sign + t && (sign + t)[0] == sign[0] && (sign + t)[1..] == t
  {
    SpacesSkipped(spaces, sign + t);
  }

  /** The entries of a file named "a" with inode 12 and of "b" with 3 are "a/12/b/3/". */
  lemma PrintExample()
    ensures Print([Entry([0x61], 12), Entry([0x62], 3)]) == [0x61, 0x2f, 0x31, 0x32, 0x2f, 0x62, 0x2f, 0x33, 0x2f]
  {
    assert Decimal(1) == [0x31] && Decimal(12) == [0x31, 0x32] && Decimal(3) == [0x33];
    assert [Entry([0x61], 12), Entry([0x62], 3)][1..] == [Entry([0x62], 3)];
    assert Print([Entry([0x62], 3)]) == [0x62, 0x2f, 0x33, 0x2f];
  }

  ghost predicate Printable(es: seq<Entry>) {
    forall i :: 0 <= i < |es| ==> SLASH !in es[i].name && es[i].inum <= MAX_INUM
  }

  lemma {:induction false} ParsePrint(es: seq<Entry>, finum: nat)
    requires Printable(es)
    ensures Parse(Print(es), finum) == es
  {
    if es != [] {
      var e, tail := es[0], Print(es[1..]);
      var s := Print(es);
      var after := Decimal(e.inum) + [SLASH] + tail;
      assert s == e.name + [SLASH] + after;
      GetlineStops(e.name, after);
      DecimalIsDigits(e.inum);
      GetlineStops(Decimal(e.inum), tail);
      DecimalRoundTrip(e.inum, finum);
      ParsePrint(es[1..], e.inum);
      assert [e] + es[1..] == es;
    }
  }

  lemma {:induction false} ParsedNames(s: seq<Byte>, finum: nat)
    ensures forall i :: 0 <= i < |Parse(s, finum)| ==> SLASH !in Parse(s, finum)[i].name
    decreases |s|
  {
    if s != [] {
      var number := Getline(Getline(s).rest);
      ParsedNames(number.rest, ReadInum(number.text, finum));
    }
  }

  /** Whatever the string, the inode numbers read from it are 64-bit numbers. */
  lemma {:induction false} ParsedInums(s: seq<Byte>, finum: nat)
    requires finum <= MAX_INUM
    ensures forall i :: 0 <= i < |Parse(s, finum)| ==> Parse(s, finum)[i].inum <= MAX_INUM
    decreases |s|
  {
    if s != [] {
      var number := Getline(Getline(s).rest);
      ParsedInums(number.rest, ReadInum(number.text, finum));
    }
  }

  /** Parsing the printed entries gives them back exactly if no name has a slash in it. */
  lemma RoundTrip(es: seq<Entry>, finum: nat)
    requires forall i :: 0 <= i < |es| ==> es[i].inum <= MAX_INUM
    ensures Parse(Print(es), finum) == es <==> forall i :: 0 <= i < |es| ==> SLASH !in es[i].name
  {
    if forall i :: 0 <= i < |es| ==> SLASH !in es[i].name {
      ParsePrint(es, finum);
    } else {
      ParsedNames(Print(es), finum);
    }
  }

  // ---- Edits ----

  // The first entry of that name; 0 if there is none.
  function FindIn(es: seq<Entry>, name: Name): nat {
    if es == [] then 0 else if es[0].name == name then es[0].inum else FindIn(es[1..], name)
  }

  function Without(es: seq<Entry>, name: Name): seq<Entry> {
    if es == [] then [] else (if es[0].name != name then [es[0]] else []) + Without(es[1..], name)
  }

  lemma {:induction false} WithoutStep(es: seq<Entry>, e: Entry, name: Name)
    ensures Without(es + [e], name) == Without(es, name) + if e.name != name then [e] else []
  {
    if es == [] {
      assert es + [e] == [e];
    } else {
      assert (es + [e])[0] == es[0] && (es + [e])[1..] == es[1..] + [e];
      WithoutStep(es[1..], e, name);
    }
  }

  class Directory {
    var dirString: seq<Byte>
    var dir: seq<Entry>

    constructor (dirStr: seq<Byte>, junk: nat)
      ensures dirString == dirStr && dir == Parse(dirStr, junk)
    {
      dirString := dirStr;
      var finum, rest, entries := junk, dirStr, [];
      while rest != []
        invariant entries + Parse(rest, finum) == Parse(dirStr, junk)
        decreases |rest|
      {
        var line := Getline(rest);
        var number := Getline(line.rest);
        finum := ReadInum(number.text, finum);
        entries := entries + [Entry(line.text, finum)];
        rest := number.rest;
      }
      dir := entries;
    }

    method Find(name: Name) returns (finum: nat)
      ensures finum == FindIn(dir, name)
    {
      finum := 0;
      var i := 0;
      while i < |dir|
        invariant 0 <= i <= |dir|
        invariant FindIn(dir, name) == FindIn(dir[i..], name)
      {
        if name == dir[i].name {
          return dir[i].inum;
        }
        i := i + 1;
      }
    }

    /** The printed form stays that of the entries. */
    method AddEnt(dire: Entry)
      modifies this
      ensures dir == old(dir) + [dire] && dirString == old(dirString) + PrintEntry(dire)
      ensures old(dirString == Print(dir)) ==> dirString == Print(dir)
    {
      PrintAppend(dir, dire);
      dirString := dirString + PrintEntry(dire);
      dir := dir + [dire];
    }

    /** The printed form is that of the entries, whatever it was before. */
    method DelEnt(name: Name)
      modifies this
      ensures dir == Without(old(dir), name) && dirString == Print(dir)
    {
      var newString: seq<Byte>, newList, i := [], [], 0;
      while i < |dir|
        invariant 0 <= i <= |dir| && dir == old(dir)
        invariant newList == Without(dir[..i], name) && newString == Print(newList)
      {
        assert dir[..i + 1] == dir[..i] + [dir[i]];
        WithoutStep(dir[..i], dir[i], name);
        if name != dir[i].name {
          PrintAppend(newList, dir[i]);
          newString := newString + PrintEntry(dir[i]);
          newList := newList + [dir[i]];
        }
        i := i + 1;
      }
      assert dir[..i] == dir;
      dir := newList;
      dirString := newString;
    }

    method ToString() returns (s: seq<Byte>)
      ensures s == dirString
    {
      s := dirString;
    }
  }

  // ---- What a directory means ----

  // Entries as the operations make them: names without slashes, no name twice, and inode
  // numbers that are not 0.
  ghost predicate Proper(es: seq<Entry>) {
    && (forall i :: 0 <= i < |es| ==> SLASH !in es[i].name && 0 < es[i].inum <= MAX_INUM)
    && (forall i, j :: 0 <= i < j < |es| ==> es[i].name != es[j].name)
  }

  ghost predicate IsDirectory(s: seq<Byte>) {
    exists es :: Proper(es) && s == Print(es)
  }

  /** The directory as a map from name to inode number. */
  function Names(es: seq<Entry>): map<Name, nat> {
    if es == [] then map[] else Names(es[..|es| - 1])[es[|es| - 1].name := es[|es| - 1].inum]
  }

  function NamesOf(s: seq<Byte>): map<Name, nat> {
    Names(Parse(s, 0))
  }

  // Every string that an operation has written is parsed into the entries it was made of.
  lemma Entries(s: seq<Byte>, junk: nat)
    requires IsDirectory(s)
    ensures Proper(Parse(s, junk)) && Print(Parse(s, junk)) == s && Parse(s, junk) == Parse(s, 0)
  {
    var es :| Proper(es) && s == Print(es);
    ParsePrint(es, junk);
    ParsePrint(es, 0);
  }

  lemma EmptyDirectory()
    ensures IsDirectory([]) && NamesOf([]) == map[]
  {
    assert Proper([]) && Print([]) == [];
  }

  lemma {:induction false} NamesAt(es: seq<Entry>, name: Name)
    ensures name in Names(es) <==> exists i :: 0 <= i < |es| && es[i].name == name
  {
    if es != [] {
      var init := es[..|es| - 1];
      NamesAt(init, name);
      if name in Names(init) {
        var i :| 0 <= i < |init| && init[i].name == name;
        assert es[i].name == name;
      }
      if i :| 0 <= i < |es| && es[i].name == name {
        assert i < |init| ==> init[i].name == name;
      }
    }
  }

  lemma {:induction false} NamesValue(es: seq<Entry>, i: nat)
    requires Proper(es) && i < |es|
    ensures es[i].name in Names(es) && Names(es)[es[i].name] == es[i].inum
  {
    if i < |es| - 1 {
      var init := es[..|es| - 1];
      NamesValue(init, i);
      assert init[i] == es[i];
    }
  }

  lemma {:induction false} FindAt(es: seq<Entry>, name: Name)
    ensures if exists i :: 0 <= i < |es| && es[i].name == name
            then exists i :: 0 <= i < |es| && es[i].name == name && FindIn(es, name) == es[i].inum
            else FindIn(es, name) == 0
  {
    if es != [] && es[0].name != name {
      var tail := es[1..];
      FindAt(tail, name);
      if i :| 0 <= i < |es| && es[i].name == name {
        assert tail[i - 1].name == name;
        var j :| 0 <= j < |tail| && tail[j].name == name && FindIn(tail, name) == tail[j].inum;
        assert es[j + 1] == tail[j];
      }
    }
  }

  /** find is the map: 0 exactly for the names that are not there. */
  lemma FindIsNames(es: seq<Entry>, name: Name)
    requires Proper(es)
    ensures FindIn(es, name) != 0 <==> name in Names(es)
    ensures name in Names(es) ==> FindIn(es, name) == Names(es)[name]
  {
    NamesAt(es, name);
    FindAt(es, name);
    if name in Names(es) {
      var i :| 0 <= i < |es| && es[i].name == name && FindIn(es, name) == es[i].inum;
      NamesValue(es, i);
    }
  }

  lemma AddIsProper(es: seq<Entry>, e: Entry)
    requires Proper(es) && e.name !in Names(es) && SLASH !in e.name && 0 < e.inum <= MAX_INUM
    ensures Proper(es + [e]) && Names(es + [e]) == Names(es)[e.name := e.inum]
  {
    NamesAt(es, e.name);
    ProperAppend(es, e);
  }

  lemma {:induction false} WithoutMembers(es: seq<Entry>, name: Name)
    ensures forall e :: e in Without(es, name) <==> e in es && e.name != name
  {
    if es != [] {
      assert es == [es[0]] + es[1..];
      WithoutMembers(es[1..], name);
    }
  }

  lemma ProperAppend(es: seq<Entry>, e: Entry)
    requires Proper(es) && SLASH !in e.name && 0 < e.inum <= MAX_INUM && forall d :: d in es ==> d.name != e.name
    ensures Proper(es + [e]) && Names(es + [e]) == Names(es)[e.name := e.inum]
  {
    assert (es + [e])[..|es|] == es;
    assert forall i :: 0 <= i < |es| ==> es[i] in es;
  }

  lemma {:induction false} WithoutNames(es: seq<Entry>, name: Name)
    ensures Names(Without(es, name)) == Names(es) - {name}
  {
    if es != [] {
      var init, e := es[..|es| - 1], es[|es| - 1];
      var kept := Without(init, name);
      assert es == init + [e];
      WithoutStep(init, e, name);
      WithoutNames(init, name);
      if e.name != name {
        assert (kept + [e])[..|kept|] == kept;
        assert Names(kept)[e.name := e.inum] == Names(init)[e.name := e.inum] - {name};
      } else {
        assert Without(es, name) == kept;
        assert Names(init) - {name} == Names(init)[name := e.inum] - {name};
      }
    }
  }

  lemma {:induction false} WithoutProper(es: seq<Entry>, name: Name)
    requires Proper(es)
    ensures Proper(Without(es, name))
  {
    if es != [] {
      var init, e := es[..|es| - 1], es[|es| - 1];
      assert es == init + [e];
      WithoutStep(init, e, name);
      WithoutProper(init, name);
      WithoutMembers(init, name);
      if e.name != name {
        ProperAppend(Without(init, name), e);
      }
    }
  }

  // ---- The operations on one directory ----

  datatype Status = OK | RPCERR | NOENT | IOERR | EXIST | CREERR | WRTERR | READERR

  // create, mkdir and symlink: an entry for the new inode ino, unless the name is taken.
  function CreateIn(s: seq<Byte>, name: Name, ino: nat, junk: nat): (Status, seq<Byte>) {
    if FindIn(Parse(s, junk), name) != 0 then (EXIST, s) else (OK, s + PrintEntry(Entry(name, ino)))
  }

  function LookupIn(s: seq<Byte>, name: Name, junk: nat): (Status, nat) {
    var ino := FindIn(Parse(s, junk), name);
    (if ino == 0 then NOENT else OK, ino)
  }

  // A name that is not there is no error.
  function UnlinkIn(s: seq<Byte>, name: Name, junk: nat): (Status, seq<Byte>) {
    if FindIn(Parse(s, junk), name) == 0 then (OK, s) else (OK, Print(Without(Parse(s, junk), name)))
  }

  /** Whether find finds the name is whether it is in the map. */
  lemma TakenMeans(s: seq<Byte>, name: Name, junk: nat)
    requires IsDirectory(s)
    ensures FindIn(Parse(s, junk), name) != 0 <==> name in NamesOf(s)
  {
    Entries(s, junk);
    FindIsNames(Parse(s, junk), name);
  }

  lemma CreateMeans(s: seq<Byte>, name: Name, ino: nat, junk: nat)
    requires IsDirectory(s) && SLASH !in name && 0 < ino <= MAX_INUM
    ensures var (r, s') := CreateIn(s, name, ino, junk);
            && IsDirectory(s') && r == (if name in NamesOf(s) then EXIST else OK)
            && NamesOf(s') == (if name in NamesOf(s) then NamesOf(s) else NamesOf(s)[name := ino])
            && Parse(s', 0) == Parse(s, 0) + if name in NamesOf(s) then [] else [Entry(name, ino)]
  {
    var es, e := Parse(s, junk), Entry(name, ino);
    Entries(s, junk);
    FindIsNames(es, name);
    if name !in Names(es) {
      AddIsProper(es, e);
      PrintAppend(es, e);
      Entries(Print(es + [e]), 0);
      ParsePrint(es + [e], 0);
    }
  }

  lemma LookupMeans(s: seq<Byte>, name: Name, junk: nat)
    requires IsDirectory(s)
    ensures LookupIn(s, name, junk) == if name in NamesOf(s) then (OK, NamesOf(s)[name]) else (NOENT, 0)
  {
    Entries(s, junk);
    FindIsNames(Parse(s, junk), name);
  }

  /** The reply to an unlink is OK for every string and every name. */
  lemma UnlinkReplies(s: seq<Byte>, name: Name, junk: nat)
    ensures UnlinkIn(s, name, junk).0 == OK
  {
  }

  lemma UnlinkMeans(s: seq<Byte>, name: Name, junk: nat)
    requires IsDirectory(s)
    ensures var (r, s') := UnlinkIn(s, name, junk);
            && IsDirectory(s') && r == OK && NamesOf(s') == NamesOf(s) - {name}
            && Parse(s', 0) == Without(Parse(s, 0), name) && (name !in NamesOf(s) ==> s' == s)
  {
    var es := Parse(s, junk);
    Entries(s, junk);
    FindIsNames(es, name);
    if name in Names(es) {
      WithoutProper(es, name);
      WithoutNames(es, name);
      ParsePrint(Without(es, name), 0);
    } else {
      NamesAt(es, name);
      WithoutNone(es, name);
    }
  }

  lemma {:induction false} WithoutNone(es: seq<Entry>, name: Name)
    requires forall i :: 0 <= i < |es| ==> es[i].name != name
    ensures Without(es, name) == es
  {
    if es != [] {
      WithoutNone(es[1..], name);
      assert [es[0]] + es[1..] == es;
    }
  }

  lemma {:induction false} WithoutShrinks(es: seq<Entry>, name: Name)
    ensures |Print(Without(es, name))| <= |Print(es)|
  {
    if es != [] {
      WithoutShrinks(es[1..], name);
      if es[0].name != name {
        assert ([es[0]] + Without(es[1..], name))[1..] == Without(es[1..], name);
      } else {
        assert Without(es, name) == Without(es[1..], name);
      }
    }
  }

  /** A directory does not grow when a name is removed. */
  lemma UnlinkShrinks(s: seq<Byte>, name: Name, junk: nat)
    requires IsDirectory(s)
    ensures |UnlinkIn(s, name, junk).1| <= |s|
  {
    Entries(s, junk);
    WithoutShrinks(Parse(s, junk), name);
  }

  // ---- Runs ----

  datatype DirOp = Make(name: Name, ino: nat) | Unlink(name: Name)

  function Do(s: seq<Byte>, op: DirOp, junk: nat): seq<Byte> {
    match op
    case Make(name, ino) => CreateIn(s, name, ino, junk).1
    case Unlink(name) => UnlinkIn(s, name, junk).1
  }

  // A run; junk supplies what the uninitialised inum variable holds in each operation.
  function DoAll(s: seq<Byte>, ops: seq<DirOp>, junk: nat -> nat): seq<Byte> {
    if ops == [] then s else Do(DoAll(s, ops[..|ops| - 1], junk), ops[|ops| - 1], junk(|ops|))
  }

  function Mean(m: map<Name, nat>, op: DirOp): map<Name, nat> {
    match op
    case Make(name, ino) => if name in m then m else m[name := ino]
    case Unlink(name) => m - {name}
  }

  function MeanAll(m: map<Name, nat>, ops: seq<DirOp>): map<Name, nat> {
    if ops == [] then m else Mean(MeanAll(m, ops[..|ops| - 1]), ops[|ops| - 1])
  }

  predicate Sane(op: DirOp) {
    op.Make? ==> SLASH !in op.name && 0 < op.ino <= MAX_INUM
  }

  /** Over every run from an empty directory the string means the map that the operations
      describe. */
  lemma {:induction false} NamespaceRefines(ops: seq<DirOp>, junk: nat -> nat)
    requires forall i :: 0 <= i < |ops| ==> Sane(ops[i])
    ensures var s := DoAll([], ops, junk);
            IsDirectory(s) && NamesOf(s) == MeanAll(map[], ops)
  {
    if ops == [] {
      assert Proper([]) && Print([]) == [];
    } else {
      var s, op := DoAll([], ops[..|ops| - 1], junk), ops[|ops| - 1];
      NamespaceRefines(ops[..|ops| - 1], junk);
      match op
      case Make(name, ino) => CreateMeans(s, name, ino, junk(|ops|));
      case Unlink(name) => UnlinkMeans(s, name, junk(|ops|));
    }
  }

  /** After every run the replies are those that the map gives. */
  lemma RepliesFollow(ops: seq<DirOp>, junk: nat -> nat, name: Name, ino: nat, finum: nat)
    requires forall i :: 0 <= i < |ops| ==> Sane(ops[i])
    requires SLASH !in name && 0 < ino <= MAX_INUM
    ensures var s, m := DoAll([], ops, junk), MeanAll(map[], ops);
            && CreateIn(s, name, ino, finum).0 == (if name in m then EXIST else OK)
            && LookupIn(s, name, finum) == (if name in m then (OK, m[name]) else (NOENT, 0))
            && UnlinkIn(s, name, finum).0 == OK
  {
    var s := DoAll([], ops, junk);
    NamespaceRefines(ops, junk);
    CreateMeans(s, name, ino, finum);
    LookupMeans(s, name, finum);
    UnlinkMeans(s, name, finum);
  }
}
