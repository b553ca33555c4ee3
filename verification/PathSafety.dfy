/**
 Sanitising received relative paths and resolving case-insensitive collisions.

 Lengths are UTF-8 byte lengths, as in a Rust string. Case folding is a per-character map that is
 fixed on ASCII and arbitrary elsewhere.
 */
module PathSafety {
  import opened Hashing
  import opened Ordering
  import opened Strings
  import opened Paths

  const MAX_REL_PATH_LEN: nat := 230
  const MAX_COMPONENT_LEN: nat := 255
  const ILLEGAL: set<char> := {'<', '>', ':', '"', '|', '?', '*', '/', '\\'}

  datatype PathSafetyError = Traversal | Absolute | Empty | TooLong(len: nat)

  datatype Result<+T, +E> = Ok(value: T) | Err(error: E)

  // ----- lengths -----

  function Utf8Len(c: char): (n: nat)
    ensures 1 <= n <= 4
  {
    var u := c as int;
    if u < 0x80 then 1 else if u < 0x800 then 2 else if u < 0x1_0000 then 3 else 4
  }

  function ByteLen(s: string): (n: nat)
    ensures |s| <= n
  {
    if s == "" then 0 else ByteLen(s[..|s| - 1]) + Utf8Len(s[|s| - 1])
  }

  lemma {:induction false} ByteLenAppend(a: string, b: string)
    ensures ByteLen(a + b) == ByteLen(a) + ByteLen(b)
  {
    if b == "" {
      assert a + b == a;
    } else {
      ByteLenAppend(a, b[..|b| - 1]);
      assert (a + b)[..|a + b| - 1] == a + b[..|b| - 1];
    }
  }

  ghost function PlacesFrom(s: string, u: nat): set<nat> {
    set k: nat | k < |s| && s[k] as int >= u
  }

  /** One byte a character, and one more from each of the code points 0x80, 0x800 and 0x10000 on. */
  lemma {:induction false} ByteLenCounts(s: string)
    ensures ByteLen(s) == |s| + |PlacesFrom(s, 0x80)| + |PlacesFrom(s, 0x800)| + |PlacesFrom(s, 0x1_0000)|
  {
    if s == "" {
      assert forall u: nat :: PlacesFrom(s, u) == {};
    } else {
      ByteLenCounts(s[..|s| - 1]);
      OneMorePlace(s, 0x80);
      OneMorePlace(s, 0x800);
      OneMorePlace(s, 0x1_0000);
    }
  }

  lemma OneMorePlace(s: string, u: nat)
    requires s != ""
    ensures |PlacesFrom(s, u)| == |PlacesFrom(s[..|s| - 1], u)| + if s[|s| - 1] as int >= u then 1 else 0
  {
    var n := |s| - 1;
    assert PlacesFrom(s, u) == PlacesFrom(s[..n], u) + if s[n] as int >= u then {n} else {};
  }

  lemma {:induction false} ByteLenJoin(parts: seq<string>, p: string, sep: char)
    requires p in parts
    ensures ByteLen(p) <= ByteLen(Join(parts, sep))
  {
    if |parts| > 1 {
      ByteLenAppend(parts[0] + [sep], Join(parts[1..], sep));
      ByteLenAppend(parts[0], [sep]);
      if p != parts[0] {
        ByteLenJoin(parts[1..], p, sep);
      }
    }
  }

  // ----- one component -----

  predicate IsControl(c: char) {
    c as int < 0x20 || 0x7f <= c as int <= 0x9f
  }

  predicate Unclean(c: char) {
    c in ILLEGAL || IsControl(c)
  }

  function Cleaned(s: string): (r: string)
    ensures |r| == |s|
    ensures forall k | 0 <= k < |s| :: r[k] == if Unclean(s[k]) then '_' else s[k]
  {
    seq(|s|, k requires 0 <= k < |s| => if Unclean(s[k]) then '_' else s[k])
  }

  predicate TrailingJunk(s: string) {
    s != "" && (s[|s| - 1] == ' ' || s[|s| - 1] == '.')
  }

  function TrimEnd(s: string): (r: string)
    ensures !TrailingJunk(r)
    ensures r <= s
  {
    if TrailingJunk(s) then TrimEnd(s[..|s| - 1]) else s
  }

  function AsciiUpper(c: char): char {
    if 'a' <= c <= 'z' then (c as int - 32) as char else c
  }

  function ToAsciiUpper(s: string): (r: string)
    ensures |r| == |s|
    ensures forall k | 0 <= k < |s| :: r[k] == AsciiUpper(s[k])
  {
    seq(|s|, k requires 0 <= k < |s| => AsciiUpper(s[k]))
  }

  predicate ReservedName(stem: string) {
    var upper := ToAsciiUpper(stem);
    || upper == "CON" || upper == "PRN" || upper == "AUX" || upper == "NUL"
    || (|upper| == 4 && (upper[..3] == "COM" || upper[..3] == "LPT") && '1' <= upper[3] <= '9')
  }

  function StemOf(s: string): string {
    Split(s, '.')[0]
  }

  function TruncateKeepExt(s: string, max: nat): string {
    var dot := LastIndex(s, '.');
    if dot >= 0 && ByteLen(s[dot + 1..]) + 1 < max && s[dot + 1..] != "" then
      var stem, ext := s[..dot], s[dot + 1..];
      stem[..Min(|stem|, max - ByteLen(ext) - 1)] + "." + ext
    else
      s[..Min(|s|, max)]
  }

  function OrUnderscore(s: string): string {
    if s == "" then "_" else s
  }

  function Escaped(s: string): string {
    if ReservedName(StemOf(s)) then "_" + s else s
  }

  function Capped(s: string): string {
    if ByteLen(s) > MAX_COMPONENT_LEN then TruncateKeepExt(s, MAX_COMPONENT_LEN) else s
  }

  function SanitizedComponent(raw: string): Option<string> {
    if raw == "" || raw == "." then None
    else Some(Capped(Escaped(OrUnderscore(TrimEnd(Cleaned(raw))))))
  }

  /** A file or folder name every target system accepts as it stands. */
  predicate Portable(c: string) {
    && c != ""
    && (forall k | 0 <= k < |c| :: !Unclean(c[k]))
    && !TrailingJunk(c)
    && !ReservedName(StemOf(c))
  }

  /** The names of devices, in capitals. */
  ghost predicate IsDevice(name: string) {
    || name in {"CON", "PRN", "AUX", "NUL"}
    || (|name| == 4 && name[..3] in {"COM", "LPT"} && name[3] in {'1', '2', '3', '4', '5', '6', '7', '8', '9'})
  }

  /** The same name up to capitals. */
  ghost predicate SpellsDevice(s: string, device: string) {
    |s| == |device| && forall k | 0 <= k < |s| ::
                         s[k] == device[k] || ('A' <= device[k] <= 'Z' && s[k] as int == device[k] as int + 32)
  }

  /** Up to its first dot the name is that of a device. */
  ghost predicate NamesDevice(c: string) {
    exists n, device :: 0 <= n <= |c| && IsDevice(device) && (forall k | 0 <= k < n :: c[k] != '.') &&
                        (n < |c| ==> c[n] == '.') && SpellsDevice(c[..n], device)
  }

  /** Characters some target system forbids: nine printable ones and the control characters. */
  ghost predicate Forbidden(c: char) {
    || c == '<' || c == '>' || c == ':' || c == '"' || c == '|' || c == '?' || c == '*' || c == '/' || c == '\\'
    || c as int < 32 || 127 <= c as int < 160
  }

  lemma UncleanIsForbidden(c: char)
    ensures Unclean(c) <==> Forbidden(c)
  {
  }

  lemma UpperSpells(s: string, device: string)
    requires forall k | 0 <= k < |device| :: 'A' <= device[k] <= 'Z' || '0' <= device[k] <= '9'
    ensures ToAsciiUpper(s) == device <==> SpellsDevice(s, device)
  {
    if ToAsciiUpper(s) == device {
      assert forall k | 0 <= k < |s| :: AsciiUpper(s[k]) == device[k];
    }
  }

  lemma ReservedIsDevice(s: string)
    ensures ReservedName(s) <==> exists device :: IsDevice(device) && SpellsDevice(s, device)
  {
    assert ReservedName(s) <==> IsDevice(ToAsciiUpper(s));
    forall device | IsDevice(device)
      ensures ToAsciiUpper(s) == device <==> SpellsDevice(s, device)
    {
      DeviceLetters(device);
      UpperSpells(s, device);
    }
  }

  lemma DeviceLetters(device: string)
    requires IsDevice(device)
    ensures forall k | 0 <= k < |device| :: 'A' <= device[k] <= 'Z' || '0' <= device[k] <= '9'
  {
    if |device| == 4 {
      assert device == device[..3] + [device[3]];
    }
  }

  lemma StemIsDevice(c: string)
    ensures ReservedName(StemOf(c)) <==> NamesDevice(c)
  {
    var n := SplitFirst(c, '.');
    hide ReservedName, SpellsDevice;
    ReservedIsDevice(c[..n]);
    if ReservedName(c[..n]) {
      var device :| IsDevice(device) && SpellsDevice(c[..n], device);
    }
    if NamesDevice(c) {
      var m, device :| 0 <= m <= |c| && IsDevice(device) && (forall k | 0 <= k < m :: c[k] != '.') &&
          (m < |c| ==> c[m] == '.') && SpellsDevice(c[..m], device);
      assert m == n;
    }
  }

  /** Portable names, spelled out: no forbidden character, no dot or space at the end, no device. */
  lemma PortableMeans(c: string)
    ensures Portable(c) <==>
              && c != "" && (forall k | 0 <= k < |c| :: !Forbidden(c[k]))
              && c[|c| - 1] != ' ' && c[|c| - 1] != '.' && !NamesDevice(c)
  {
    StemIsDevice(c);
    hide ReservedName, NamesDevice, StemOf;
    forall k | 0 <= k < |c|
      ensures Unclean(c[k]) <==> Forbidden(c[k])
    {
      UncleanIsForbidden(c[k]);
    }
  }

  lemma PortableIsPlain(c: string)
    requires Portable(c)
    ensures Plain(c) && c != ".."
  {
  }

  /** Cleaned, trimmed and nonempty: what a name is before the reserved-name check. */
  predicate Clean(s: string) {
    s != "" && (forall k | 0 <= k < |s| :: !Unclean(s[k])) && !TrailingJunk(s)
  }

  lemma TrimmedIsClean(raw: string)
    ensures Clean(OrUnderscore(TrimEnd(Cleaned(raw))))
  {
  }

  lemma EscapedIsPortable(s: string)
    requires Clean(s)
    ensures Portable(Escaped(s))
  {
  }

  /** Before the length cap, every sanitised component is portable. */
  lemma UncappedIsPortable(raw: string)
    ensures Portable(Escaped(OrUnderscore(TrimEnd(Cleaned(raw)))))
  {
    TrimmedIsClean(raw);
    EscapedIsPortable(OrUnderscore(TrimEnd(Cleaned(raw))));
  }

  lemma {:induction false} ByteLenPrefix(s: string, n: nat)
    requires n <= |s|
    ensures n <= ByteLen(s[..n]) <= ByteLen(s)
  {
    ByteLenAppend(s[..n], s[n..]);
    assert s == s[..n] + s[n..];
  }

  lemma ByteLenTake(s: string, n: nat)
    requires ByteLen(s) >= n
    ensures ByteLen(s[..Min(|s|, n)]) >= n
  {
    ByteLenPrefix(s, Min(|s|, n));
    if |s| <= n {
      assert s[..|s|] == s;
    }
  }

  lemma ByteLenDotted(stem: string, ext: string)
    ensures ByteLen(stem + "." + ext) == ByteLen(stem) + 1 + ByteLen(ext)
  {
    ByteLenAppend(stem + ".", ext);
    ByteLenAppend(stem, ".");
    assert ByteLen(".") == 1;
  }

  /** The cap never brings an over-long component below the cap, counted in bytes. */
  lemma TruncationStaysLong(s: string)
    requires ByteLen(s) > MAX_COMPONENT_LEN
    ensures ByteLen(TruncateKeepExt(s, MAX_COMPONENT_LEN)) >= MAX_COMPONENT_LEN
  {
    hide ByteLen, LastIndex;
    var max := MAX_COMPONENT_LEN;
    var dot := LastIndex(s, '.');
    if dot >= 0 && ByteLen(s[dot + 1..]) + 1 < max && s[dot + 1..] != "" {
      var stem, ext := s[..dot], s[dot + 1..];
      var keep := max - ByteLen(ext) - 1;
      assert s == stem + "." + ext;
      ByteLenDotted(stem, ext);
      ByteLenTake(stem, keep);
      ByteLenDotted(stem[..Min(|stem|, keep)], ext);
    } else {
      ByteLenTake(s, max);
    }
  }

  /** A sanitised component is portable unless it fills the whole component limit. */
  lemma SanitizedIsPortable(raw: string)
    requires SanitizedComponent(raw).Some?
    ensures Portable(SanitizedComponent(raw).value) || ByteLen(SanitizedComponent(raw).value) >= MAX_COMPONENT_LEN
  {
    UncappedIsPortable(raw);
    var s := Escaped(OrUnderscore(TrimEnd(Cleaned(raw))));
    if ByteLen(s) > MAX_COMPONENT_LEN {
      TruncationStaysLong(s);
    }
  }

  lemma PortableIsFixed(c: string)
    requires Portable(c) && ByteLen(c) <= MAX_COMPONENT_LEN
    ensures SanitizedComponent(c) == Some(c)
  {
    PortableIsPlain(c);
    assert Cleaned(c) == c;
  }

  // ----- a whole relative path -----

  predicate AsciiAlphabetic(c: char) {
    'a' <= c <= 'z' || 'A' <= c <= 'Z'
  }

  predicate DriveLetter(part: string) {
    |part| == 2 && part[1] == ':' && AsciiAlphabetic(part[0])
  }

  /** Both separators are accepted. */
  function Parts(raw: string): (parts: seq<string>)
    ensures parts != []
  {
    Split(Unbackslashed(raw), '/')
  }

  function Unbackslashed(raw: string): (r: string)
    ensures |r| == |raw|
    ensures forall k | 0 <= k < |raw| :: r[k] == if raw[k] == '\\' then '/' else raw[k]
  {
    seq(|raw|, k requires 0 <= k < |raw| => if raw[k] == '\\' then '/' else raw[k])
  }

  function SanitizedParts(parts: seq<string>): (out: seq<string>)
  {
    if parts == [] then []
    else
      var n := |parts| - 1;
      var last := SanitizedComponent(parts[n]);
      SanitizedParts(parts[..n]) + if last.Some? then [last.value] else []
  }

  predicate AnyDotDot(parts: seq<string>): (r: bool)
    ensures r <==> ".." in parts
  {
    if parts == [] then false
    else
      var n := |parts| - 1;
      assert parts == parts[..n] + [parts[n]];
      AnyDotDot(parts[..n]) || parts[n] == ".."
  }

  function SanitizedRelPath(raw: string): Result<string, PathSafetyError> {
    var parts := Parts(raw);
    if DriveLetter(parts[0]) then Err(Absolute)
    else if AnyDotDot(parts) then Err(Traversal)
    else if SanitizedParts(parts) == [] then Err(Empty)
    else
      var joined := Join(SanitizedParts(parts), '/');
      if ByteLen(joined) > MAX_REL_PATH_LEN then Err(TooLong(ByteLen(joined))) else Ok(joined)
  }

  /** Cleans in place, one step at a time. */
  method SanitizeComponent(raw: string) returns (r: Option<string>)
    ensures r == SanitizedComponent(raw)
  {
    if raw == "" || raw == "." {
      return None;
    }
    var s := Cleaned(raw);
    var trimmed := TrimEnd(s);
    if |trimmed| != |s| {
      s := trimmed;
    }
    assert s == TrimEnd(Cleaned(raw));
    if s == "" {
      s := "_";
    }
    if ReservedName(StemOf(s)) {
      s := "_" + s;
    }
    if ByteLen(s) > MAX_COMPONENT_LEN {
      s := TruncateKeepExt(s, MAX_COMPONENT_LEN);
    }
    return Some(s);
  }

  /** The loop over the parts; the first offending part decides the error. */
  method SanitizeRelPath(raw: string) returns (r: Result<string, PathSafetyError>)
    ensures r == SanitizedRelPath(raw) && Judged(raw, r)
  {
    RejectedPaths(raw);
    hide Judged, Parts, Join, ByteLen, SanitizedComponent;
    var parts := Parts(raw);
    var out: seq<string> := [];
    for i := 0 to |parts|
      invariant out == SanitizedParts(parts[..i])
      invariant !AnyDotDot(parts[..i])
      invariant i > 0 ==> !DriveLetter(parts[0])
    {
      assert parts[..i + 1][..i] == parts[..i];
      if parts[i] == ".." {
        assert parts[i] in parts;
        DotDotIsNoDrive(parts, i);
        return Err(Traversal);
      }
      if i == 0 && DriveLetter(parts[0]) {
        return Err(Absolute);
      }
      var c := SanitizeComponent(parts[i]);
      if c.Some? {
        out := out + [c.value];
      }
    }
    assert parts[..|parts|] == parts;
    if out == [] {
      return Err(Empty);
    }
    var joined := Join(out, '/');
    if ByteLen(joined) > MAX_REL_PATH_LEN {
      return Err(TooLong(ByteLen(joined)));
    }
    return Ok(joined);
  }

  lemma DotDotIsNoDrive(parts: seq<string>, i: nat)
    requires i < |parts| && parts[i] == ".."
    requires i > 0 ==> !DriveLetter(parts[0])
    ensures !DriveLetter(parts[0])
  {
    assert ".."[1] == '.';
  }

  // ----- which paths are rejected, and what becomes of the others -----

  predicate IsSeparator(c: char) {
    c == '/' || c == '\\'
  }

  /** The pieces between the separators: none contains one, and putting separators between them gives the path back. */
  lemma PartsAre(raw: string)
    ensures forall p, k | p in Parts(raw) && 0 <= k < |p| :: !IsSeparator(p[k])
    ensures var back := Join(Parts(raw), '/');
            |back| == |raw| && forall k | 0 <= k < |raw| :: back[k] == if IsSeparator(raw[k]) then '/' else raw[k]
  {
    JoinSplit(Unbackslashed(raw), '/');
    SplitPieces(Unbackslashed(raw), '/');
    forall p, k | p in Parts(raw) && 0 <= k < |p|
      ensures p[k] != '\\'
    {
      PieceOfWhole(Unbackslashed(raw), '/', p, k);
    }
  }

  lemma {:induction false} PieceOfWhole(s: string, sep: char, p: string, k: nat)
    requires p in Split(s, sep) && k < |p|
    ensures p[k] in s
  {
    if s != "" {
      var rest := Split(s[1..], sep);
      if p in rest {
        PieceOfWhole(s[1..], sep, p, k);
      } else if s[0] != sep && k > 0 {
        PieceOfWhole(s[1..], sep, rest[0], k - 1);
      }
    }
  }

  /** A drive letter with its colon. */
  ghost predicate NamesDrive(piece: string) {
    |piece| == 2 && piece[1] == ':' && ('a' <= piece[0] <= 'z' || 'A' <= piece[0] <= 'Z')
  }

  ghost predicate NoName(piece: string) {
    piece == "" || piece == "."
  }

  ghost function Named(pieces: seq<string>): seq<string> {
    Keep(pieces, set p | p in pieces && !NoName(p))
  }

  /**
   Which paths are rejected: a drive letter in front comes first, then a step to the parent
   anywhere, then a path without any name. What is left can only be too long.
   */
  ghost predicate Judged(raw: string, r: Result<string, PathSafetyError>) {
    var pieces := Parts(raw);
    && (r == Err(Absolute) <==> NamesDrive(pieces[0]))
    && (r == Err(Traversal) <==> !NamesDrive(pieces[0]) && ".." in pieces)
    && (r == Err(Empty) <==> !NamesDrive(pieces[0]) && ".." !in pieces && forall p | p in pieces :: NoName(p))
    && (r.Err? && r.error.TooLong? ==> r.error.len > 230)
    && (r.Ok? ==> ByteLen(r.value) <= 230)
  }

  lemma RejectedPaths(raw: string)
    ensures Judged(raw, SanitizedRelPath(raw))
  {
    SanitizedCount(Parts(raw));
    NamedNothing(Parts(raw));
    hide SanitizedParts, Parts, Named, ByteLen, Join;
  }

  lemma NamedNothing(pieces: seq<string>)
    ensures Named(pieces) == [] <==> forall p | p in pieces :: NoName(p)
  {
    var named := set p | p in pieces && !NoName(p);
    KeepElements(pieces, named);
    hide Keep;
    if Named(pieces) == [] {
      forall p | p in pieces
        ensures NoName(p)
      {
        assert p in Keep(pieces, named) <==> p in named;
      }
    } else {
      assert Named(pieces)[0] in named;
    }
  }

  /** One component for each piece with a name, in order. */
  lemma {:induction false} SanitizedKeep(pieces: seq<string>, named: set<string>)
    requires forall p | p in pieces :: p in named <==> !NoName(p)
    ensures |SanitizedParts(pieces)| == |Keep(pieces, named)|
    ensures forall k | 0 <= k < |Keep(pieces, named)| ::
              SanitizedComponent(Keep(pieces, named)[k]) == Some(SanitizedParts(pieces)[k])
  {
    if pieces != [] {
      var n := |pieces| - 1;
      assert pieces == pieces[..n] + [pieces[n]];
      SanitizedKeep(pieces[..n], named);
      KeepLast(pieces[..n], pieces[n], named);
      NamedComponent(pieces[n]);
      hide SanitizedComponent, Keep;
    }
  }

  lemma NamedComponent(raw: string)
    ensures SanitizedComponent(raw).None? <==> NoName(raw)
  {
  }

  lemma SanitizedCount(pieces: seq<string>)
    ensures |SanitizedParts(pieces)| == |Named(pieces)|
    ensures forall k | 0 <= k < |Named(pieces)| ::
              SanitizedComponent(Named(pieces)[k]) == Some(SanitizedParts(pieces)[k])
  {
    SanitizedKeep(pieces, set p | p in pieces && !NoName(p));
  }

  /** An accepted path has one component for each piece with a name, in order, and portable pieces stay as they are. */
  lemma AcceptedComponents(raw: string)
    requires SanitizedRelPath(raw).Ok?
    ensures var comps, names := Split(SanitizedRelPath(raw).value, '/'), Named(Parts(raw));
            && |comps| == |names|
            && (forall k | 0 <= k < |comps| :: SanitizedComponent(names[k]) == Some(comps[k]))
            && (forall k | 0 <= k < |comps| && Portable(names[k]) && ByteLen(names[k]) <= 255 :: comps[k] == names[k])
  {
    AcceptedPathIsPortable(raw);
    SanitizedCount(Parts(raw));
    var comps, names := Split(SanitizedRelPath(raw).value, '/'), Named(Parts(raw));
    hide SanitizedRelPath, SanitizedParts, SanitizedComponent, Named, Parts, Split, ByteLen;
    forall k | 0 <= k < |comps| && Portable(names[k]) && ByteLen(names[k]) <= 255
      ensures comps[k] == names[k]
    {
      PortableIsFixed(names[k]);
    }
  }

  /** From `n` on there are only dots and spaces. */
  ghost predicate EndsAt(piece: string, n: nat) {
    && n <= |piece| && (forall k | n <= k < |piece| :: piece[k] == ' ' || piece[k] == '.')
    && (n > 0 ==> piece[n - 1] != ' ' && piece[n - 1] != '.')
  }

  /**
   `base` is the piece up to the dots and spaces at its end, with an underscore for each forbidden
   character, and a single underscore if nothing is left.
   */
  ghost predicate CleansTo(piece: string, base: string) {
    exists n ::
      && EndsAt(piece, n)
      && if n == 0 then base == "_"
         else |base| == n && forall k | 0 <= k < n :: base[k] == if Forbidden(piece[k]) then '_' else piece[k]
  }

  lemma {:induction false} TrimmedIs(s: string) returns (n: nat)
    ensures EndsAt(s, n) && TrimEnd(s) == s[..n]
  {
    if TrailingJunk(s) {
      n := TrimmedIs(s[..|s| - 1]);
    } else {
      n := |s|;
    }
  }

  /** What a single piece becomes, as long as it stays within the length limit of a component. */
  lemma ComponentIs(piece: string) returns (base: string)
    requires !NoName(piece)
    ensures CleansTo(piece, base)
    ensures var full := if NamesDevice(base) then "_" + base else base;
            ByteLen(full) <= 255 ==> SanitizedComponent(piece) == Some(full)
  {
    var n := TrimmedIs(Cleaned(piece));
    base := OrUnderscore(TrimEnd(Cleaned(piece)));
    forall k | 0 <= k < |piece|
      ensures Cleaned(piece)[k] == if Forbidden(piece[k]) then '_' else piece[k]
    {
      UncleanIsForbidden(piece[k]);
    }
    StemIsDevice(base);
    hide NamesDevice, ByteLen, TrimEnd, StemOf, ReservedName, Unclean;
    assert EndsAt(piece, n) by {
      assert forall k | 0 <= k < |piece| :: Cleaned(piece)[k] == ' ' || Cleaned(piece)[k] == '.' <==>
                                            piece[k] == ' ' || piece[k] == '.';
    }
  }

  /** A capped component keeps its extension if that leaves room for more, and the beginning of its name. */
  lemma CapKeepsExtension(s: string, stem: string, ext: string)
    requires ByteLen(s) > 255 && s == stem + "." + ext && '.' !in ext && ext != "" && ByteLen(ext) + 1 < 255
    ensures exists kept :: kept <= stem && |kept| == Min(|stem|, 254 - ByteLen(ext)) && Capped(s) == kept + "." + ext
  {
    hide ByteLen;
    LastIndexOfDot(stem, ext);
    assert s[|stem| + 1..] == ext && s[..|stem|] == stem;
    hide LastIndex;
    var kept := stem[..Min(|stem|, 254 - ByteLen(ext))];
    assert Capped(s) == kept + "." + ext;
  }

  lemma LastIndexOfDot(stem: string, ext: string)
    requires '.' !in ext
    ensures LastIndex(stem + "." + ext, '.') == |stem|
  {
    TailIndex(stem + ".", ext, '.');
    LastIndexIs(stem + "." + ext, '.', |stem|);
  }

  lemma {:induction false} SanitizedPartsArePortable(parts: seq<string>)
    ensures forall c | c in SanitizedParts(parts) :: Portable(c) || ByteLen(c) >= MAX_COMPONENT_LEN
  {
    if parts != [] {
      var n := |parts| - 1;
      SanitizedPartsArePortable(parts[..n]);
      if SanitizedComponent(parts[n]).Some? {
        SanitizedIsPortable(parts[n]);
      }
    }
  }

  lemma {:induction false} PortablePartsAreFixed(parts: seq<string>)
    requires forall c | c in parts :: Portable(c) && ByteLen(c) <= MAX_COMPONENT_LEN
    ensures SanitizedParts(parts) == parts
  {
    if parts != [] {
      var n := |parts| - 1;
      assert parts == parts[..n] + [parts[n]];
      assert forall c | c in parts[..n] :: c in parts;
      PortablePartsAreFixed(parts[..n]);
      PortableIsFixed(parts[n]);
    }
  }

  /** Every accepted path is a nonempty list of portable components within the length limit. */
  lemma AcceptedPathIsPortable(raw: string)
    requires SanitizedRelPath(raw).Ok?
    ensures var p := SanitizedRelPath(raw).value;
            && ByteLen(p) <= MAX_REL_PATH_LEN
            && Split(p, '/') == SanitizedParts(Parts(raw))
            && forall c | c in Split(p, '/') :: Portable(c) && ByteLen(c) <= MAX_REL_PATH_LEN
  {
    var parts := SanitizedParts(Parts(raw));
    SanitizedPartsArePortable(Parts(raw));
    forall c | c in parts
      ensures Portable(c) && ByteLen(c) <= MAX_REL_PATH_LEN && '/' !in c
    {
      ByteLenJoin(parts, c, '/');
      PortableIsPlain(c);
    }
    SplitJoin(parts, '/');
  }

  /** Portable components joined with slashes are a fixed point of sanitising. */
  lemma PortableJoinIsFixed(comps: seq<string>)
    requires comps != [] && ByteLen(Join(comps, '/')) <= MAX_REL_PATH_LEN
    requires forall c | c in comps :: Portable(c) && ByteLen(c) <= MAX_REL_PATH_LEN
    ensures SanitizedRelPath(Join(comps, '/')) == Ok(Join(comps, '/'))
  {
    var p := Join(comps, '/');
    forall c | c in comps
      ensures '/' !in c && c != ".." && !DriveLetter(c)
    {
      PortableIsPlain(c);
    }
    NoBackslash(comps);
    assert Unbackslashed(p) == p;
    SplitJoin(comps, '/');
    PortablePartsAreFixed(comps);
  }

  /** Sanitising is idempotent, and the download side joins an accepted path component for component. */
  lemma AcceptedPathIsStable(raw: string)
    requires SanitizedRelPath(raw).Ok?
    ensures var p := SanitizedRelPath(raw).value;
            SanitizedRelPath(p) == Ok(p) && SafeJoin(p) == Some(Split(p, '/'))
  {
    AcceptedPathIsPortable(raw);
    var comps := Split(SanitizedRelPath(raw).value, '/');
    JoinSplit(SanitizedRelPath(raw).value, '/');
    PortableJoinIsFixed(comps);
    forall c | c in comps
      ensures Plain(c)
    {
      PortableIsPlain(c);
    }
    SafeJoinPlain(comps);
  }

  lemma {:induction false} NoBackslash(comps: seq<string>)
    requires forall c | c in comps :: Portable(c)
    ensures '\\' !in Join(comps, '/')
  {
    if comps != [] {
      PortableIsPlain(comps[0]);
      if |comps| > 1 {
        NoBackslash(comps[1..]);
      }
    }
  }
}
