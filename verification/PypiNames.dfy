/** Reading project names out of a PyPI project list without parsing it. A text is its
    sequence of bytes, each written as a character. */
module PypiNames {
  import opened Wrappers
  import opened Sequences

  /** The key, with its quotes. */
  function Key(): (key: string)
    ensures key != ""
  {
    "\"name\""
  }

  predicate IsSpace(c: char) { c == ' ' || c == '\t' || c == '\n' || c == '\r' || c == '\U{000C}' }

  /** The least offset from `start` on at which the needle occurs. */
  function FindSubslice(haystack: string, needle: string, start: nat): (r: Option<nat>)
    requires needle != ""
    ensures r.Some? ==> start <= r.value && OccursAt(haystack, needle, r.value)
                        && forall i :: start <= i < r.value ==> !OccursAt(haystack, needle, i)
    ensures r == None ==> forall i :: start <= i ==> !OccursAt(haystack, needle, i)
    decreases |haystack| - start
  {
    if start + |needle| > |haystack| then None
    else if haystack[start..start + |needle|] == needle then Some(start)
    else FindSubslice(haystack, needle, start + 1)
  }

  predicate OccursAt(haystack: string, needle: string, i: int) {
    0 <= i && i + |needle| <= |haystack| && haystack[i..i + |needle|] == needle
  }

  function SkipSpace(s: string): (r: string)
    ensures |r| <= |s|
  {
    if s != "" && IsSpace(s[0]) then SkipSpace(s[1..]) else s
  }

  /** Where a string ends: at the first quote that no backslash hides. */
  function Closing(s: string): (r: Option<nat>)
    ensures r.Some? ==> r.value < |s|
    decreases |s|
  {
    if s == "" then None
    else if s[0] == '\\' then
      if |s| == 1 then None
      else match Closing(s[2..]) case None => None case Some(e) => Some(e + 2)
    else if s[0] == '"' then Some(0)
    else match Closing(s[1..]) case None => None case Some(e) => Some(e + 1)
  }

  /** How many backslashes stand right before `i`. */
  ghost function Backslashes(s: string, i: nat): nat
    requires i <= |s|
  {
    if i == 0 || s[i - 1] != '\\' then 0 else 1 + Backslashes(s, i - 1)
  }

  /** A quote that no backslash hides: an even number of them stands before it. */
  ghost predicate EndsAt(s: string, i: nat) { i < |s| && s[i] == '"' && Backslashes(s, i) % 2 == 0 }

  lemma {:induction false} RunShifted(s: string, i: nat)
    requires s != "" && i < |s|
    ensures s[0] != '\\' ==> Backslashes(s, i + 1) == Backslashes(s[1..], i)
    ensures s[0] == '\\' && i > 0 ==> Backslashes(s, i + 1) % 2 == Backslashes(s[2..], i - 1) % 2
  {
    if i > 0 && s[i] == '\\' {
      assert Backslashes(s, 1) == (if s[0] == '\\' then 1 + Backslashes(s, 0) else 0);
      RunShifted(s, i - 1);
    }
  }

  /** A string ends at its first quote with an even number of backslashes before it, if there
      is one. */
  lemma {:induction false} ClosingIff(s: string)
    ensures match Closing(s)
      case None => forall i: nat :: !EndsAt(s, i)
      case Some(e) => EndsAt(s, e) && forall i: nat :: i < e ==> !EndsAt(s, i)
    decreases |s|
  {
    if s != "" && s[0] == '\\' {
      if |s| > 1 {
        ClosingIff(s[2..]);
        assert Backslashes(s, 1) == 1 + Backslashes(s, 0);
        assert !EndsAt(s, 0) && !EndsAt(s, 1);
        forall i: nat ensures EndsAt(s[2..], i) <==> EndsAt(s, i + 2) { if i + 2 < |s| { RunShifted(s, i + 1); } }
        NoneEarlier(s, 2);
      }
    } else if s != "" && s[0] != '"' {
      ClosingIff(s[1..]);
      assert !EndsAt(s, 0);
      forall i: nat ensures EndsAt(s[1..], i) <==> EndsAt(s, i + 1) { if i + 1 < |s| { RunShifted(s, i); } }
      NoneEarlier(s, 1);
    }
  }

  lemma NoneEarlier(s: string, n: nat)
    requires n <= |s| && (forall i: nat :: i < n ==> !EndsAt(s, i)) && forall i: nat :: EndsAt(s[n..], i) <==> EndsAt(s, i + n)
    ensures forall i: nat :: EndsAt(s, i) ==> i >= n && EndsAt(s[n..], i - n)
  {
    forall i: nat | EndsAt(s, i) ensures i >= n && EndsAt(s[n..], i - n) { assert i >= n && EndsAt(s, (i - n) + n); }
  }

  function Tail(s: string): string { if s == "" then "" else s[1..] }

  /** What one look for a name key leads to: nothing more, text to go on with, or a name. */
  datatype Found = End | Skip(rest: string) | Name(text: string, rest: string)

  function InText(s: string): Found {
    match Closing(s) case None => Skip("") case Some(e) => Name(s[..e], s[e + 1..])
  }

  function AfterColon(s: string): Found { if s == "" || s[0] != '"' then Skip(Tail(s)) else InText(s[1..]) }

  function AfterKey(s: string): Found { if s == "" || s[0] != ':' then Skip(Tail(s)) else AfterColon(SkipSpace(s[1..])) }

  /** What follows the key found at `k`. */
  function Behind(s: string, k: Option<nat>): (f: Found)
    requires k.Some? ==> k.value + |Key()| <= |s|
    ensures f != End ==> |f.rest| < |s|
  {
    match k case None => End case Some(k) => AfterKey(SkipSpace(s[k + |Key()|..]))
  }

  function NextKey(s: string): (f: Found)
    ensures f != End ==> |f.rest| < |s|
  {
    Behind(s, FindSubslice(s, Key(), 0))
  }

  /** The values of the name keys in what is left of the text, up to the limit. */
  function Names(s: string, limit: nat): seq<string>
    decreases |s|
  {
    if s == "" || limit == 0 then [] else
    match NextKey(s)
    case End => []
    case Skip(rest) => Names(rest, limit)
    case Name(text, rest) => [text] + Names(rest, limit - 1)
  }

  // ----- the scanner

  lemma DropDrop(s: string, i: nat, j: nat)
    requires i + j <= |s|
    ensures s[i..][j..] == s[i + j..]
  {}

  lemma SliceShifted(s: string, offset: nat, start: nat, n: nat)
    requires offset + start + n <= |s|
    ensures s[offset..][start..start + n] == s[offset + start..offset + start + n]
  {}

  function Shifted(r: Option<nat>, offset: nat): Option<nat> { if r.Some? then Some(offset + r.value) else None }

  lemma OccursShifted(s: string, needle: string, offset: nat, i: nat)
    requires offset <= |s|
    ensures OccursAt(s[offset..], needle, i) <==> OccursAt(s, needle, offset + i)
  {
    if offset + i + |needle| <= |s| { SliceShifted(s, offset, i, |needle|); }
  }

  lemma FindShifted(s: string, needle: string, start: nat, offset: nat)
    requires offset + start <= |s| && needle != ""
    ensures FindSubslice(s, needle, offset + start) == Shifted(FindSubslice(s[offset..], needle, start), offset)
  {
    var here, there := FindSubslice(s, needle, offset + start), FindSubslice(s[offset..], needle, start);
    hide FindSubslice, OccursAt;
    if here.Some? { OccursShifted(s, needle, offset, here.value - offset); }
    if there.Some? { OccursShifted(s, needle, offset, there.value); }
  }

  method SkipSpaces(bytes: string, index0: nat) returns (index: nat)
    requires index0 <= |bytes|
    ensures index0 <= index <= |bytes| && bytes[index..] == SkipSpace(bytes[index0..])
  {
    index := index0;
    while index < |bytes| && IsSpace(bytes[index])
      invariant index0 <= index <= |bytes| && SkipSpace(bytes[index0..]) == SkipSpace(bytes[index..])
    {
      assert bytes[index..][1..] == bytes[index + 1..];
      index := index + 1;
    }
  }

  /** The string that starts at `start` ends where the rest from `index` on says. */
  predicate InString(bytes: string, start: nat, index: nat) {
    && start <= index && start <= |bytes|
    && Closing(bytes[start..]) == if index > |bytes| then None else Shifted(Closing(bytes[index..]), index - start)
  }

  lemma InStringStep(bytes: string, start: nat, index: nat)
    requires InString(bytes, start, index) && index < |bytes|
    ensures bytes[index] == '\\' ==> InString(bytes, start, index + 2)
    ensures bytes[index] == '"' ==> Closing(bytes[start..]) == Some(index - start)
    ensures bytes[index] != '\\' && bytes[index] != '"' ==> InString(bytes, start, index + 1)
  {
    DropDrop(bytes, index, 1);
    if index + 2 <= |bytes| { DropDrop(bytes, index, 2); }
    var rest := bytes[index..];
    if bytes[index] == '\\' {
      assert Closing(rest) == if |rest| == 1 then None else Shifted(Closing(rest[2..]), 2);
    } else if bytes[index] != '"' {
      assert Closing(rest) == Shifted(Closing(rest[1..]), 1);
    }
  }

  lemma StringEnd(bytes: string, start: nat, index: nat)
    requires InString(bytes, start, index) && index >= |bytes|
    ensures Closing(bytes[start..]) == None
  {}

  lemma StringStart(bytes: string, start: nat)
    requires start <= |bytes|
    ensures InString(bytes, start, start)
  {}

  /** Scans a string literal; the cursor ends behind the closing quote, or at the end. */
  method ScanString(bytes: string, start: nat) returns (name: Option<string>, cursor: nat)
    requires start <= |bytes|
    ensures match Closing(bytes[start..])
            case None => name == None && cursor >= |bytes|
            case Some(e) => name == Some(bytes[start..][..e]) && cursor == start + e + 1
  {
    hide *;
    var index := start;
    StringStart(bytes, start);
    while index < |bytes|
      invariant start <= index && InString(bytes, start, index)
      decreases |bytes| - index
    {
      InStringStep(bytes, start, index);
      if bytes[index] == '\\' {
        index := index + 2;
        continue;
      }
      if bytes[index] == '"' {
        SliceShifted(bytes, start, 0, index - start);
        return Some(bytes[start..index]), index + 1;
      }
      index := index + 1;
    }
    StringEnd(bytes, start, index);
    return None, index;
  }

  /** What is left of the text; a backslash at its end can move the cursor past it. */
  function Left(bytes: string, cursor: nat): string { if cursor <= |bytes| then bytes[cursor..] else "" }

  function FoundAt(bytes: string, more: bool, name: Option<string>, cursor: nat): Found {
    if !more then End else if name == None then Skip(Left(bytes, cursor)) else Name(name.value, Left(bytes, cursor))
  }

  lemma TailAt(bytes: string, index: nat)
    requires index <= |bytes|
    ensures Tail(bytes[index..]) == Left(bytes, index + 1)
    ensures index < |bytes| ==> bytes[index..] != "" && bytes[index..][0] == bytes[index]
    ensures index == |bytes| ==> bytes[index..] == ""
  {}

  method ScanValue(bytes: string, index: nat) returns (name: Option<string>, cursor: nat)
    requires index <= |bytes|
    ensures AfterColon(bytes[index..]) == FoundAt(bytes, true, name, cursor) && cursor > index
  {
    hide Closing;
    TailAt(bytes, index);
    if index >= |bytes| || bytes[index] != '"' { return None, index + 1; }
    name, cursor := ScanString(bytes, index + 1);
    if name.Some? { DropDrop(bytes, index + 1, cursor - (index + 1)); }
  }

  lemma NextKeyIs(s: string)
    ensures NextKey(s) == Behind(s, FindSubslice(s, Key(), 0))
  {}

  lemma BehindShifted(s: string, offset: nat, k: Option<nat>)
    requires k.Some? ==> offset + k.value + |Key()| <= |s|
    requires offset <= |s|
    ensures Behind(s[offset..], k) == Behind(s, Shifted(k, offset))
  {
    hide AfterKey, SkipSpace, Key;
    if k.Some? { DropDrop(s, offset, k.value + |Key()|); }
  }

  lemma KeyAt(bytes: string, cursor: nat)
    requires cursor <= |bytes|
    ensures NextKey(bytes[cursor..]) == Behind(bytes, FindSubslice(bytes, Key(), cursor))
  {
    hide FindSubslice, AfterKey, SkipSpace, Key, NextKey, Behind, Shifted;
    NextKeyIs(bytes[cursor..]);
    FindShifted(bytes, Key(), 0, cursor);
    BehindShifted(bytes, cursor, FindSubslice(bytes[cursor..], Key(), 0));
  }

  lemma ColonAt(bytes: string, index: nat)
    requires index <= |bytes|
    ensures AfterKey(bytes[index..]) ==
            if index >= |bytes| || bytes[index] != ':' then Skip(Left(bytes, index + 1))
            else AfterColon(SkipSpace(bytes[index + 1..]))
  {
    hide AfterColon, SkipSpace, Left, Tail;
    TailAt(bytes, index);
    if index < |bytes| { DropDrop(bytes, index, 1); }
  }

  /** One turn of the scan: what it finds, and a cursor that has moved on. */
  method ScanKey(bytes: string, cursor0: nat) returns (more: bool, name: Option<string>, cursor: nat)
    requires cursor0 < |bytes|
    ensures more ==> cursor > cursor0
    ensures NextKey(bytes[cursor0..]) == FoundAt(bytes, more, name, cursor)
  {
    hide Closing, AfterColon, AfterKey, SkipSpace, NextKey, FindSubslice, Left;
    KeyAt(bytes, cursor0);
    var key := FindSubslice(bytes, Key(), cursor0);
    if key == None { return false, None, cursor0; }
    var index := SkipSpaces(bytes, key.value + |Key()|);
    ColonAt(bytes, index);
    if index >= |bytes| || bytes[index] != ':' { return true, None, index + 1; }
    index := SkipSpaces(bytes, index + 1);
    name, cursor := ScanValue(bytes, index);
    more := true;
  }

  lemma NamesStep(names: seq<string>, s: string, limit: nat)
    requires s != "" && limit > 0
    ensures names + Names(s, limit) ==
            match NextKey(s)
            case End => names
            case Skip(rest) => names + Names(rest, limit)
            case Name(text, rest) => (names + [text]) + Names(rest, limit - 1)
  {
    hide NextKey;
    match NextKey(s)
    case End => assert names + [] == names;
    case Skip(_) =>
    case Name(text, rest) => assert names + ([text] + Names(rest, limit - 1)) == (names + [text]) + Names(rest, limit - 1);
  }

  /** The names found so far, and those of what is left, are those of the text. */
  predicate SoFar(bytes: string, limit: nat, names: seq<string>, cursor: nat) {
    |names| <= limit && Names(bytes, limit) == names + Names(Left(bytes, cursor), limit - |names|)
  }

  lemma StartSoFar(bytes: string, limit: nat)
    ensures SoFar(bytes, limit, [], 0)
  {
    assert bytes[0..] == bytes && [] + Names(bytes, limit) == Names(bytes, limit);
  }

  lemma TurnSoFar(bytes: string, limit: nat, names: seq<string>, cursor: nat, more: bool, name: Option<string>, next: nat)
    requires SoFar(bytes, limit, names, cursor) && cursor < |bytes| && |names| < limit
    requires NextKey(bytes[cursor..]) == FoundAt(bytes, more, name, next)
    ensures if !more then names == Names(bytes, limit) else SoFar(bytes, limit, if name.Some? then names + [name.value] else names, next)
  {
    hide Names, NextKey;
    NamesStep(names, bytes[cursor..], limit - |names|);
  }

  lemma EndSoFar(bytes: string, limit: nat, names: seq<string>, cursor: nat)
    requires SoFar(bytes, limit, names, cursor) && (cursor >= |bytes| || |names| >= limit)
    ensures names == Names(bytes, limit)
  {}

  /** The scan returns the first names of the text; every turn moves the cursor on. */
  method ExtractPypiProjectNames(bytes: string, limit: nat) returns (names: seq<string>)
    ensures names == Names(bytes, limit)
  {
    hide *;
    names := [];
    var cursor := 0;
    StartSoFar(bytes, limit);
    while cursor < |bytes| && |names| < limit
      invariant SoFar(bytes, limit, names, cursor)
      decreases |bytes| - cursor
    {
      var more, name, next := ScanKey(bytes, cursor);
      TurnSoFar(bytes, limit, names, cursor, more, name, next);
      if !more { return; }
      if name.Some? { names := names + [name.value]; }
      cursor := next;
    }
    EndSoFar(bytes, limit, names, cursor);
  }

  // ----- what it inverts

  /** Tab, line feed, form feed, carriage return or space. */
  ghost predicate IsBlank(c: char) { var n := c as int; n == 9 || n == 10 || n == 12 || n == 13 || n == 32 }

  lemma BlankIff(c: char)
    ensures IsBlank(c) <==> IsSpace(c)
  {}

  ghost predicate AllSpace(s: string) { forall i :: 0 <= i < |s| ==> IsBlank(s[i]) }

  /** How a project list is printed, as in PEP 691, section 'Project List': one object a
      project, with spaces and other fields anywhere but inside the name field. */
  datatype Layout = Layout(head: string, open: string, beforeColon: string, afterColon: string,
                           close: string, separator: string, foot: string) {
    function Entry(name: string): string {
      open + (Key() + (beforeColon + (":" + (afterColon + ("\"" + (name + ("\"" + close)))))))
    }

    function Body(names: seq<string>): string {
      if names == [] then foot
      else if |names| == 1 then Entry(names[0]) + foot
      else Entry(names[0]) + (separator + Body(names[1..]))
    }

    function Render(names: seq<string>): string { head + Body(names) }

    /** Nothing but the name fields looks like a name key. */
    ghost predicate Valid() {
      && AllSpace(beforeColon) && AllSpace(afterColon)
      && Quiet(head + open) && Quiet(close + separator + open)
      && Silent(head + foot) && Silent(close + foot)
    }
  }

  /** The first name key behind `s` is the one that follows it. */
  ghost predicate Quiet(s: string) { forall i :: 0 <= i < |s| ==> !OccursAt(s + Key(), Key(), i) }

  ghost predicate Silent(s: string) { forall i :: 0 <= i < |s| ==> !OccursAt(s, Key(), i) }

  /** The text of a string: no quote in it stands bare, and no backslash at its end hides
      the quote behind it. */
  ghost predicate Literal(name: string) {
    (forall i :: 0 <= i < |name| ==> !EndsAt(name, i)) && Backslashes(name, |name|) % 2 == 0
  }

  lemma PlainIsLiteral(name: string)
    requires forall i :: 0 <= i < |name| ==> name[i] != '"' && name[i] != '\\'
    ensures Literal(name)
  {}

  lemma SlicePrefix(s: string, more: string, i: nat, n: nat)
    requires i + n <= |s|
    ensures (s + more)[i..i + n] == s[i..i + n]
  {}

  lemma SliceMiddle(s: string, needle: string, more: string)
    ensures (s + (needle + more))[|s|..|s| + |needle|] == needle
    ensures s + (needle + more) == (s + needle) + more
  {}

  lemma OccursInPrefix(s: string, more: string, needle: string, i: nat)
    requires i + |needle| <= |s|
    ensures OccursAt(s + more, needle, i) <==> OccursAt(s, needle, i)
  {
    SlicePrefix(s, more, i, |needle|);
  }

  lemma FindBehind(s: string, more: string)
    requires Quiet(s)
    ensures FindSubslice(s + (Key() + more), Key(), 0) == Some(|s|)
  {
    SliceMiddle(s, Key(), more);
    assert OccursAt(s + (Key() + more), Key(), |s|);
    forall i | 0 <= i < |s| ensures !OccursAt(s + (Key() + more), Key(), i) {
      OccursInPrefix(s + Key(), more, Key(), i);
    }
    hide OccursAt, FindSubslice;
  }

  lemma {:induction false} SkipAll(space: string, more: string)
    requires AllSpace(space) && (more == "" || !IsSpace(more[0]))
    ensures SkipSpace(space + more) == more
  {
    if space == "" {
      assert space + more == more;
    } else {
      BlankIff(space[0]);
      SkipAll(space[1..], more);
      assert (space + more)[1..] == space[1..] + more;
    }
  }

  lemma ClosingLiteral(name: string, more: string)
    requires Literal(name)
    ensures Closing(name + ("\"" + more)) == Some(|name|)
  {
    var all := name + ("\"" + more);
    ClosingIff(all);
    forall i | 0 <= i <= |name| ensures Backslashes(all, i) == Backslashes(name, i) { RunInPrefix(name, "\"" + more, i); }
    assert EndsAt(all, |name|);
    forall i | 0 <= i < |name| ensures !EndsAt(all, i) { assert !EndsAt(name, i) && all[i] == name[i]; }
    hide Closing, EndsAt;
  }

  lemma {:induction false} RunInPrefix(s: string, more: string, i: nat)
    requires i <= |s|
    ensures Backslashes(s + more, i) == Backslashes(s, i)
  {
    if i > 0 && s[i - 1] == '\\' { RunInPrefix(s, more, i - 1); }
  }

  /** A name field, with whatever follows its value. */
  function Field(beforeColon: string, afterColon: string, name: string, more: string): string {
    Key() + (beforeColon + (":" + (afterColon + ("\"" + (name + ("\"" + more))))))
  }

  /** A quiet stretch and a name field lead to that name and to what follows it. */
  lemma FieldFound(quiet: string, beforeColon: string, afterColon: string, name: string, more: string)
    requires Quiet(quiet) && AllSpace(beforeColon) && AllSpace(afterColon) && Literal(name)
    ensures NextKey(quiet + Field(beforeColon, afterColon, name, more)) == Name(name, more)
  {
    hide FindSubslice, SkipSpace, Closing, Quiet;
    var text := name + ("\"" + more);
    var value := "\"" + text;
    var colon := ":" + (afterColon + value);
    var afterKey := beforeColon + colon;
    FindBehind(quiet, afterKey);
    DropPrefix(quiet, Key(), afterKey);
    SkipAll(beforeColon, colon);
    TailOf(":", afterColon + value);
    SkipAll(afterColon, value);
    TailOf("\"", text);
    ClosingLiteral(name, more);
    TextParts(name, more);
  }

  /** A name key without a colon behind it is passed over, with the character in its place. */
  lemma NoColonSkipped(quiet: string, space: string, c: char, rest: string)
    requires Quiet(quiet) && AllSpace(space) && c != ':' && !IsBlank(c)
    ensures NextKey(quiet + (Key() + (space + ([c] + rest)))) == Skip(rest)
  {
    hide FindSubslice, SkipSpace, Quiet;
    BlankIff(c);
    FindBehind(quiet, space + ([c] + rest));
    DropPrefix(quiet, Key(), space + ([c] + rest));
    SkipAll(space, [c] + rest);
    TailOf([c], rest);
  }

  /** So is one whose value is not a string; one whose string does not end uses up the text. */
  lemma NoStringSkipped(quiet: string, beforeColon: string, afterColon: string, c: char, rest: string)
    requires Quiet(quiet) && AllSpace(beforeColon) && AllSpace(afterColon) && !IsBlank(c)
    ensures var f := NextKey(quiet + (Key() + (beforeColon + (":" + (afterColon + ([c] + rest))))));
      && (c != '"' ==> f == Skip(rest))
      && (c == '"' && (forall i: nat :: !EndsAt(rest, i)) ==> f == Skip(""))
  {
    hide FindSubslice, SkipSpace, Quiet, Closing;
    var value := [c] + rest;
    var colon := ":" + (afterColon + value);
    BlankIff(c);
    FindBehind(quiet, beforeColon + colon);
    DropPrefix(quiet, Key(), beforeColon + colon);
    SkipAll(beforeColon, colon);
    TailOf(":", afterColon + value);
    SkipAll(afterColon, value);
    TailOf([c], rest);
    ClosingIff(rest);
  }

  lemma DropPrefix(s: string, needle: string, more: string)
    ensures (s + (needle + more))[|s| + |needle|..] == more
  {}

  lemma TailOf(head: string, tail: string)
    requires |head| == 1
    ensures (head + tail)[0] == head[0] && (head + tail)[1..] == tail
  {}

  lemma TextParts(name: string, more: string)
    ensures (name + ("\"" + more))[..|name|] == name && (name + ("\"" + more))[|name| + 1..] == more
  {}

  lemma EntryIsField(l: Layout, pre: string, name: string, more: string)
    ensures pre + (l.Entry(name) + more) == (pre + l.open) + Field(l.beforeColon, l.afterColon, name, l.close + more)
  {
    var t0 := "\"" + l.close;
    var t1 := name + t0;
    var t2 := "\"" + t1;
    var t3 := l.afterColon + t2;
    var t4 := ":" + t3;
    var t5 := l.beforeColon + t4;
    Reassociate("\"", l.close, more);
    Reassociate(name, t0, more);
    Reassociate("\"", t1, more);
    Reassociate(l.afterColon, t2, more);
    Reassociate(":", t3, more);
    Reassociate(l.beforeColon, t4, more);
    Reassociate(Key(), t5, more);
    Reassociate(l.open, Key() + t5, more);
    Reassociate(pre, l.open, Field(l.beforeColon, l.afterColon, name, l.close + more));
  }

  function First(names: seq<string>, limit: nat): seq<string> { if |names| <= limit then names else names[..limit] }

  lemma SilentEnds(s: string)
    requires Silent(s)
    ensures NextKey(s) == End && forall limit :: Names(s, limit) == []
  {}

  lemma EntryTaken(l: Layout, pre: string, name: string, more: string, limit: nat)
    requires AllSpace(l.beforeColon) && AllSpace(l.afterColon) && Quiet(pre + l.open) && Literal(name) && limit > 0
    ensures Names(pre + (l.Entry(name) + more), limit) == [name] + Names(l.close + more, limit - 1)
  {
    EntryIsField(l, pre, name, more);
    FieldFound(pre + l.open, l.beforeColon, l.afterColon, name, l.close + more);
    var text := pre + (l.Entry(name) + more);
    assert |text| >= |l.Entry(name)| > 0;
    hide NextKey, Quiet, Literal, AllSpace;
  }

  lemma FirstCons(names: seq<string>, limit: nat)
    requires names != [] && limit > 0
    ensures First(names, limit) == [names[0]] + First(names[1..], limit - 1)
  {
    assert names == [names[0]] + names[1..];
    if |names| > limit { assert names[..limit] == [names[0]] + names[1..][..limit - 1]; }
  }

  ghost predicate AllLiteral(names: seq<string>) { forall i :: 0 <= i < |names| ==> Literal(names[i]) }

  lemma LiteralParts(names: seq<string>)
    requires AllLiteral(names) && names != []
    ensures Literal(names[0]) && AllLiteral(names[1..])
  {}

  lemma ValidParts(l: Layout)
    requires l.Valid()
    ensures AllSpace(l.beforeColon) && AllSpace(l.afterColon)
    ensures Quiet(l.head + l.open) && Quiet(l.close + l.separator + l.open)
    ensures Silent(l.head + l.foot) && Silent(l.close + l.foot)
  {}

  lemma BodyParts(l: Layout, names: seq<string>)
    requires names != []
    ensures l.Body(names) == l.Entry(names[0]) + (if |names| == 1 then l.foot else l.separator + l.Body(names[1..]))
  {}

  lemma {:induction false} BodyInverted(l: Layout, pre: string, names: seq<string>, limit: nat)
    requires l.Valid() && names != [] && Quiet(pre + l.open) && AllLiteral(names)
    ensures Names(pre + l.Body(names), limit) == First(names, limit)
    decreases |names|
  {
    hide *;
    if limit == 0 {
      NoNames(pre + l.Body(names), names);
    } else {
      ValidParts(l);
      LiteralParts(names);
      BodyParts(l, names);
      FirstCons(names, limit);
      if |names| == 1 {
        EntryTaken(l, pre, names[0], l.foot, limit);
        SilentEnds(l.close + l.foot);
        FirstNone(limit - 1);
        assert names[1..] == [];
      } else {
        EntryTaken(l, pre, names[0], l.separator + l.Body(names[1..]), limit);
        Reassociate(l.close, l.separator, l.Body(names[1..]));
        BodyInverted(l, l.close + l.separator, names[1..], limit - 1);
      }
    }
  }

  lemma NoNames(s: string, names: seq<string>)
    ensures Names(s, 0) == First(names, 0)
  {}

  lemma FirstNone(limit: nat)
    ensures First([], limit) == []
  {}

  /** Scanning a printed project list gives back its first names, in order, even those of
      projects that are called `name`. */
  lemma NamesInvertsRender(l: Layout, names: seq<string>, limit: nat)
    requires l.Valid() && AllLiteral(names)
    ensures Names(l.Render(names), limit) == First(names, limit)
  {
    if names == [] {
      SilentEnds(l.head + l.foot);
    } else {
      BodyInverted(l, l.head, names, limit);
    }
  }

  /** Text in which no quote comes last or before an `n` holds no name key. */
  ghost predicate NoKeyStart(s: string) { forall i :: 0 <= i < |s| && s[i] == '"' ==> i + 1 < |s| && s[i + 1] != 'n' }

  lemma NoKeyStartIsQuiet(s: string)
    requires NoKeyStart(s)
    ensures Quiet(s) && Silent(s)
  {
    var key := Key();
    forall i | 0 <= i < |s| ensures !OccursAt(s, key, i) && !OccursAt(s + key, key, i) {
      NotAKey(s, i);
      NotAKey(s + key, i);
    }
  }

  lemma NotAKey(s: string, i: nat)
    requires i < |s| && (s[i] == '"' ==> i + 1 < |s| && s[i + 1] != 'n')
    ensures !OccursAt(s, Key(), i)
  {
    var n := |Key()|;
    assert i + n <= |s| ==> s[i..i + n][0] == s[i] && s[i..i + n][1] == s[i + 1];
  }

  lemma {:induction false} PiecesAreQuiet(pieces: seq<string>)
    requires forall i :: 0 <= i < |pieces| ==> NoKeyStart(pieces[i])
    ensures NoKeyStart(Joined(pieces))
  {
    if pieces != [] { PiecesAreQuiet(pieces[1..]); }
  }

  function Joined(pieces: seq<string>): string { if pieces == [] then "" else pieces[0] + Joined(pieces[1..]) }

  /** The printing that PEP 691 gives as its example. */
  function Pep691(): Layout { Layout(Joined(Meta()), "{", "", " ", "}", ",\n", "]}") }

  function Meta(): seq<string> { ["{\"meta", "\": {", "\"api-", "version", "\": ", "\"1.0", "\"}, ", "\"projects", "\": ["] }

  lemma Pep691IsValid()
    ensures Pep691().Valid()
  {
    var l := Pep691();
    forall i | 0 <= i < |Meta()| ensures NoKeyStart(Meta()[i]) {}
    PiecesAreQuiet(Meta());
    hide Joined, Meta;
    assert NoKeyStart(l.head + l.open) && NoKeyStart(l.close + l.separator + l.open) && NoKeyStart(l.head + l.foot) && NoKeyStart(l.close + l.foot);
    NoKeyStartIsQuiet(l.head + l.open);
    NoKeyStartIsQuiet(l.close + l.separator + l.open);
    NoKeyStartIsQuiet(l.head + l.foot);
    NoKeyStartIsQuiet(l.close + l.foot);
  }
}
