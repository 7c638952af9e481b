/**
 The permission-profile printer of the desktop app, and a reader for the TOML it
 needs: comments, bare keys, basic strings and arrays of them (TOML v1.0.0,
 sections "Comment", "Keys", "String" and "Array"), with the defaults of the
 profile loader. Printing and reading back is the identity exactly on profiles
 without stray control characters.
 */
module TomlProfile {
  import opened Common

  datatype Profile = Profile(
    name: string,
    description: string,
    autoApprove: seq<string>,
    confirm: seq<string>,
    deny: seq<string>)

  // ---- The printer -------------------------------------------------------

  function EscapeChar(c: char): (r: string)
    ensures 0 < |r|
  {
    match c
    case '"' => "\\\""
    case '\\' => "\\\\"
    case '\n' => "\\n"
    case '\r' => "\\r"
    case '\t' => "\\t"
    case _ => [c]
  }

  function Escaped(s: string): string {
    if s == "" then "" else EscapeChar(s[0]) + Escaped(s[1..])
  }

  function BasicString(s: string): string {
    "\"" + Escaped(s) + "\""
  }

  function Joined(items: seq<string>): string {
    if items == [] then ""
    else if |items| == 1 then BasicString(items[0])
    else BasicString(items[0]) + ", " + Joined(items[1..])
  }

  function StringArray(items: seq<string>): string {
    "[" + Joined(items) + "]"
  }

  function Line(key: string, value: string): string {
    key + " = " + value + "\n"
  }

  const TITLE_WHAT := " Custom permission profile "
  const TITLE_WHO := "\U{2014} managed by shannon-desktop."
  const TITLE := TITLE_WHAT + TITLE_WHO
  const HEADER := "#" + TITLE + "\n\n"

  function Rendered(p: Profile): string {
    HEADER
    + (Line("name", BasicString(p.name))
    + (Line("description", BasicString(p.description))
    + (Line("auto_approve", StringArray(p.autoApprove))
    + (Line("confirm", StringArray(p.confirm))
    + Line("deny", StringArray(p.deny))))))
  }

  /** A printed string stays on its line: no raw tab, newline or carriage return is left in it, and every quote is escaped. */
  lemma {:induction false} EscapedStaysOnLine(s: string)
    ensures forall i :: 0 <= i < |Escaped(s)| ==> Escaped(s)[i] != '\t' && Escaped(s)[i] != '\n' && Escaped(s)[i] != '\r'
    ensures forall i :: 0 <= i < |Escaped(s)| && Escaped(s)[i] == '"' ==> i > 0 && Escaped(s)[i - 1] == '\\'
  {
    if s != "" {
      EscapedStaysOnLine(s[1..]);
      var first, rest := EscapeChar(s[0]), Escaped(s[1..]);
      forall i | 0 <= i < |Escaped(s)|
        ensures Escaped(s)[i] == if i < |first| then first[i] else rest[i - |first|]
      {
      }
    }
  }

  /** The document after its title comment, line for line. */
  lemma RenderedMeans(p: Profile)
    ensures Rendered(p) ==
            HEADER
            + ("name = " + BasicString(p.name) + "\n")
            + ("description = " + BasicString(p.description) + "\n")
            + ("auto_approve = " + StringArray(p.autoApprove) + "\n")
            + ("confirm = " + StringArray(p.confirm) + "\n")
            + ("deny = " + StringArray(p.deny) + "\n")
    ensures HEADER != "" && HEADER[0] == '#'
  {
    LineMeans("name", "name = ", BasicString(p.name));
    LineMeans("description", "description = ", BasicString(p.description));
    LineMeans("auto_approve", "auto_approve = ", StringArray(p.autoApprove));
    LineMeans("confirm", "confirm = ", StringArray(p.confirm));
    LineMeans("deny", "deny = ", StringArray(p.deny));
    Regrouped(HEADER, Line("name", BasicString(p.name)), Line("description", BasicString(p.description)),
              Line("auto_approve", StringArray(p.autoApprove)), Line("confirm", StringArray(p.confirm)), Line("deny", StringArray(p.deny)));
    hide Line, BasicString, StringArray;
  }

  lemma LineMeans(key: string, start: string, value: string)
    requires start == key + " = "
    ensures Line(key, value) == start + value + "\n"
  {
  }

  lemma Regrouped(a: string, b: string, c: string, d: string, e: string, f: string)
    ensures a + (b + (c + (d + (e + f)))) == a + b + c + d + e + f
  {
  }

  lemma {:induction false} EscapedAppend(s: string, c: char)
    ensures Escaped(s + [c]) == Escaped(s) + EscapeChar(c)
  {
    if s == "" {
      assert (s + [c])[1..] == "";
    } else {
      EscapedAppend(s[1..], c);
      assert (s + [c])[1..] == s[1..] + [c];
    }
  }

  lemma {:induction false} JoinedAppend(items: seq<string>, item: string)
    ensures Joined(items + [item]) ==
            if items == [] then BasicString(item) else Joined(items) + ", " + BasicString(item)
  {
    hide BasicString;
    if |items| == 1 {
      assert (items + [item])[1..] == [item];
    } else if |items| > 1 {
      JoinedAppend(items[1..], item);
      assert (items + [item])[1..] == items[1..] + [item];
    }
  }

  lemma EscapedEmpty()
    ensures Escaped("") == ""
  {
  }

  /** `toml_basic_string`. */
  method TomlBasicString(s: string) returns (out: string)
    ensures out == BasicString(s)
  {
    hide Escaped;
    assert Escaped("") == "" by { EscapedEmpty(); }
    out := "\"";
    var i := 0;
    while i < |s|
      invariant 0 <= i <= |s|
      invariant out == "\"" + Escaped(s[..i])
    {
      var c := s[i];
      EscapedAppend(s[..i], c);
      assert s[..i + 1] == s[..i] + [c];
      match c {
        case '"' => out := out + "\\\"";
        case '\\' => out := out + "\\\\";
        case '\n' => out := out + "\\n";
        case '\r' => out := out + "\\r";
        case '\t' => out := out + "\\t";
        case _ => out := out + [c];
      }
      i := i + 1;
    }
    assert s[..i] == s;
    out := out + "\"";
  }

  /** `toml_string_array`. */
  method TomlStringArray(items: seq<string>) returns (out: string)
    ensures out == StringArray(items)
  {
    if items == [] {
      return "[]";
    }
    out := "[";
    var i := 0;
    while i < |items|
      invariant 0 <= i <= |items|
      invariant out == "[" + Joined(items[..i])
    {
      JoinedAppend(items[..i], items[i]);
      assert items[..i + 1] == items[..i] + [items[i]];
      if i > 0 {
        out := out + ", ";
      }
      var item := TomlBasicString(items[i]);
      out := out + item;
      i := i + 1;
    }
    assert items[..i] == items;
    out := out + "]";
  }

  /** `render_profile_toml`. */
  method RenderProfileToml(p: Profile) returns (out: string)
    ensures out == Rendered(p)
  {
    out := HEADER;
    var name := TomlBasicString(p.name);
    out := out + Line("name", name);
    var description := TomlBasicString(p.description);
    out := out + Line("description", description);
    var autoApprove := TomlStringArray(p.autoApprove);
    out := out + Line("auto_approve", autoApprove);
    var confirm := TomlStringArray(p.confirm);
    out := out + Line("confirm", confirm);
    var deny := TomlStringArray(p.deny);
    out := out + Line("deny", deny);
  }

  // ---- The reader --------------------------------------------------------

  /** Control characters a TOML basic string may not hold raw (all but tab). */
  predicate IsRawControl(c: char) {
    c <= '\U{8}' || '\U{A}' <= c <= '\U{1F}' || c == '\U{7F}'
  }

  function HexDigit(c: char): Option<nat> {
    if '0' <= c <= '9' then Some(c as int - '0' as int)
    else if 'a' <= c <= 'f' then Some(c as int - 'a' as int + 10)
    else if 'A' <= c <= 'F' then Some(c as int - 'A' as int + 10)
    else None
  }

  function HexNumber(t: string, acc: nat): Option<nat> {
    if t == "" then Some(acc)
    else if HexDigit(t[0]).None? then None
    else HexNumber(t[1..], acc * 16 + HexDigit(t[0]).value)
  }

  /** `\uXXXX` and `\UXXXXXXXX`: a Unicode scalar value. */
  function UnicodeEscape(digits: string): Option<char> {
    var n := HexNumber(digits, 0);
    if n.Some? && (n.value < 0xD800 || 0xE000 <= n.value < 0x11_0000) then Some(n.value as char) else None
  }

  /** One escape sequence, `t` being the text after the backslash: the character and how long the sequence is. */
  function ReadEscape(t: string): (r: Option<(char, nat)>)
    ensures r.Some? ==> 0 < r.value.1 <= |t|
  {
    if t == "" then None
    else match t[0]
      case 'b' => Some(('\U{8}', 1))
      case 't' => Some(('\t', 1))
      case 'n' => Some(('\n', 1))
      case 'f' => Some(('\U{C}', 1))
      case 'r' => Some(('\r', 1))
      case '"' => Some(('"', 1))
      case '\\' => Some(('\\', 1))
      case 'u' =>
        if |t| >= 5 && UnicodeEscape(t[1..5]).Some? then Some((UnicodeEscape(t[1..5]).value, 5)) else None
      case 'U' =>
        if |t| >= 9 && UnicodeEscape(t[1..9]).Some? then Some((UnicodeEscape(t[1..9]).value, 9)) else None
      case _ => None
  }

  /** The rest of a basic string, after its opening quote: content and remaining text. */
  function ReadChars(t: string): (r: Option<(string, string)>)
    ensures r.Some? ==> |r.value.1| < |t|
  {
    if t == "" then None
    else if t[0] == '"' then Some(("", t[1..]))
    else if t[0] == '\\' then
      var e := ReadEscape(t[1..]);
      if e.None? then None
      else
        var rest := ReadChars(t[1 + e.value.1..]);
        if rest.None? then None else Some(([e.value.0] + rest.value.0, rest.value.1))
    else if IsRawControl(t[0]) then None
    else
      var rest := ReadChars(t[1..]);
      if rest.None? then None else Some(([t[0]] + rest.value.0, rest.value.1))
  }

  /** A basic string; three quotes open a multi-line string, which this reader does not read. */
  function ReadString(t: string): (r: Option<(string, string)>)
    ensures r.Some? ==> |r.value.1| < |t|
  {
    if t == "" || t[0] != '"' || "\"\"" <= t[1..] then None else ReadChars(t[1..])
  }

  function SkipSpaces(t: string): (r: string)
    ensures |r| <= |t|
  {
    if t != "" && (t[0] == ' ' || t[0] == '\t') then SkipSpaces(t[1..]) else t
  }

  /** To the end of a comment: the newline, if any, is left. Control characters are not allowed in it. */
  function SkipComment(t: string): (r: Option<string>)
    ensures r.Some? ==> |r.value| <= |t|
  {
    if t == "" || t[0] == '\n' || "\r\n" <= t then Some(t)
    else if IsRawControl(t[0]) then None
    else SkipComment(t[1..])
  }

  /** Between array elements: spaces, newlines and comments. */
  function SkipGap(t: string): (r: Option<string>)
    ensures r.Some? ==> |r.value| <= |t|
    decreases |t|
  {
    if t == "" then Some(t)
    else if t[0] == ' ' || t[0] == '\t' || t[0] == '\n' then SkipGap(t[1..])
    else if "\r\n" <= t then SkipGap(t[2..])
    else if t[0] == '#' then
      var rest := SkipComment(t[1..]);
      if rest.None? then None else SkipGap(rest.value)
    else Some(t)
  }

  /** The rest of an array, after `[` or a comma. */
  function ReadItems(t: string): (r: Option<(seq<string>, string)>)
    ensures r.Some? ==> |r.value.1| < |t|
    decreases |t|
  {
    var start := SkipGap(t);
    if start.None? || start.value == "" then None
    else if start.value[0] == ']' then Some(([], start.value[1..]))
    else
      var item := ReadString(start.value);
      if item.None? then None
      else
        var next := SkipGap(item.value.1);
        if next.None? || next.value == "" then None
        else if next.value[0] == ']' then Some(([item.value.0], next.value[1..]))
        else if next.value[0] == ',' then
          var rest := ReadItems(next.value[1..]);
          if rest.None? then None else Some(([item.value.0] + rest.value.0, rest.value.1))
        else None
  }

  datatype Value = Str(s: string) | Arr(items: seq<string>)

  function ReadValue(t: string): (r: Option<(Value, string)>)
    ensures r.Some? ==> |r.value.1| < |t|
  {
    if t == "" then None
    else if t[0] == '[' then
      var items := ReadItems(t[1..]);
      if items.None? then None else Some((Arr(items.value.0), items.value.1))
    else
      var s := ReadString(t);
      if s.None? then None else Some((Str(s.value.0), s.value.1))
  }

  predicate IsKeyChar(c: char) {
    'a' <= c <= 'z' || 'A' <= c <= 'Z' || '0' <= c <= '9' || c == '_' || c == '-'
  }

  function TakeKey(t: string): (r: (string, string))
    ensures |r.0| + |r.1| == |t|
  {
    if t == "" || !IsKeyChar(t[0]) then ("", t)
    else
      var rest := TakeKey(t[1..]);
      ([t[0]] + rest.0, rest.1)
  }

  /** What may follow a value on its line: spaces, a comment, the newline or the end of the text. */
  function EndLine(t: string): (r: Option<string>)
    ensures r.Some? ==> |r.value| <= |t|
  {
    var s := SkipSpaces(t);
    var e := if s != "" && s[0] == '#' then SkipComment(s[1..]) else Some(s);
    if e.None? then None
    else if e.value == "" then Some("")
    else if e.value[0] == '\n' then Some(e.value[1..])
    else if "\r\n" <= e.value then Some(e.value[2..])
    else None
  }

  /** `key = value`: the key, the value, and the text after its line. */
  function ReadPair(t: string): (r: Option<(string, Value, string)>)
    ensures r.Some? ==> |r.value.2| < |t|
  {
    var key := TakeKey(t);
    var eq := SkipSpaces(key.1);
    if key.0 == "" || eq == "" || eq[0] != '=' then None
    else
      var value := ReadValue(SkipSpaces(eq[1..]));
      if value.None? then None
      else
        var rest := EndLine(value.value.1);
        if rest.None? then None else Some((key.0, value.value.0, rest.value))
  }

  /** A document of pairs, comments and blank lines; a key may be defined once. */
  function ReadDocument(t: string, table: map<string, Value>): Option<map<string, Value>>
    decreases |t|
  {
    var s := SkipSpaces(t);
    if s == "" then Some(table)
    else if s[0] == '\n' then ReadDocument(s[1..], table)
    else if "\r\n" <= s then ReadDocument(s[2..], table)
    else if s[0] == '#' then
      var rest := SkipComment(s[1..]);
      if rest.None? then None else ReadDocument(rest.value, table)
    else
      var pair := ReadPair(s);
      if pair.None? || pair.value.0 in table then None
      else ReadDocument(pair.value.2, table[pair.value.0 := pair.value.1])
  }

  function StringField(table: map<string, Value>, key: string, missing: Option<string>): Option<string> {
    if key !in table then missing
    else match table[key]
         case Str(s) => Some(s)
         case Arr(_) => None
  }

  function ArrayField(table: map<string, Value>, key: string): Option<seq<string>> {
    if key !in table then Some([])
    else match table[key]
         case Str(_) => None
         case Arr(items) => Some(items)
  }

  /** The profile loader: `name` is required and not empty, the other fields have defaults. */
  function ParseProfile(text: string): Option<Profile> {
    var table := ReadDocument(text, map[]);
    if table.None? then None
    else
      var name := StringField(table.value, "name", None);
      var description := StringField(table.value, "description", Some(""));
      var autoApprove := ArrayField(table.value, "auto_approve");
      var confirm := ArrayField(table.value, "confirm");
      var deny := ArrayField(table.value, "deny");
      if name.None? || description.None? || autoApprove.None? || confirm.None? || deny.None? || name.value == "" then None
      else Some(Profile(name.value, description.value, autoApprove.value, confirm.value, deny.value))
  }

  // ---- Reading back what was printed --------------------------------------

  /** The only control characters in `s` are the three the printer escapes. */
  predicate Clean(s: string) {
    forall i :: 0 <= i < |s| ==> !IsRawControl(s[i]) || s[i] == '\n' || s[i] == '\r'
  }

  predicate AllClean(items: seq<string>) {
    forall i :: 0 <= i < |items| ==> Clean(items[i])
  }

  predicate CleanProfile(p: Profile) {
    && Clean(p.name) && Clean(p.description)
    && AllClean(p.autoApprove) && AllClean(p.confirm) && AllClean(p.deny)
  }

  lemma CleanStep(s: string)
    requires s != ""
    ensures Clean(s) <==> Clean(s[..1]) && Clean(s[1..])
  {
    assert forall i :: 0 < i < |s| ==> s[i] == s[1..][i - 1];
  }

  lemma ReadPlainChar(c: char, t: string)
    requires c != '"' && c != '\\'
    ensures ReadChars([c] + t) ==
            if IsRawControl(c) || ReadChars(t).None? then None
            else Some(([c] + ReadChars(t).value.0, ReadChars(t).value.1))
  {
    assert ([c] + t)[1..] == t;
  }

  lemma ReadEscapePair(e: char, c: char, t: string)
    requires ReadEscape([e] + t) == Some((c, 1))
    ensures ReadChars(['\\', e] + t) ==
            if ReadChars(t).None? then None else Some(([c] + ReadChars(t).value.0, ReadChars(t).value.1))
  {
    var u := ['\\', e] + t;
    assert u[1..] == [e] + t;
    assert u[2..] == t;
  }

  /** One escaped character in front of any text. */
  lemma ReadEscapedChar(c: char, t: string)
    ensures ReadChars(EscapeChar(c) + t) ==
            if IsRawControl(c) && c != '\n' && c != '\r' then None
            else if ReadChars(t).None? then None
            else Some(([c] + ReadChars(t).value.0, ReadChars(t).value.1))
  {
    var e := EscapeChar(c);
    if |e| == 2 {
      assert e == ['\\', e[1]] && ReadEscape([e[1]] + t) == Some((c, 1));
      hide ReadChars;
      ReadEscapePair(e[1], c, t);
    } else {
      hide ReadChars;
      ReadPlainChar(c, t);
    }
  }

  /** The content of a printed string reads back exactly when the string is clean. */
  lemma {:induction false} ReadEscaped(s: string, rest: string)
    ensures ReadChars(Escaped(s) + "\"" + rest) == if Clean(s) then Some((s, rest)) else None
  {
    if s == "" {
      assert Escaped(s) + "\"" + rest == "\"" + rest;
      assert ("\"" + rest)[1..] == rest;
    } else {
      var tail := Escaped(s[1..]) + "\"" + rest;
      assert Escaped(s) + "\"" + rest == EscapeChar(s[0]) + tail;
      ReadEscaped(s[1..], rest);
      ReadEscapedChar(s[0], tail);
      CleanStep(s);
      assert s == [s[0]] + s[1..];
      assert Clean(s[..1]) <==> !(IsRawControl(s[0]) && s[0] != '\n' && s[0] != '\r');
    }
  }

  lemma ReadPrintedString(s: string, rest: string)
    requires rest == "" || rest[0] != '"'
    ensures ReadString(BasicString(s) + rest) == if Clean(s) then Some((s, rest)) else None
  {
    var t := BasicString(s) + rest;
    assert t[1..] == Escaped(s) + "\"" + rest;
    ReadEscaped(s, rest);
    if s == "" {
      assert t[1..] == "\"" + rest;
    } else {
      assert t[1] == EscapeChar(s[0])[0];
    }
  }

  /** One element followed by a comma or the closing bracket. */
  lemma ReadPrintedItem(item: string, more: string)
    requires more != "" && (more[0] == ',' || more[0] == ']')
    ensures ReadItems(BasicString(item) + more) ==
            if !Clean(item) then None
            else if more[0] == ']' then Some(([item], more[1..]))
            else if ReadItems(more[1..]).None? then None
            else Some(([item] + ReadItems(more[1..]).value.0, ReadItems(more[1..]).value.1))
  {
    var t := BasicString(item) + more;
    assert t[0] == '"' && SkipGap(t) == Some(t);
    ReadPrintedString(item, more);
    assert SkipGap(more) == Some(more);
  }

  /** The elements of a printed array, followed by its closing bracket. */
  lemma {:induction false} ReadPrintedItems(items: seq<string>, rest: string)
    ensures ReadItems(Joined(items) + "]" + rest) == if AllClean(items) then Some((items, rest)) else None
  {
    hide BasicString, Clean;
    var t := Joined(items) + "]" + rest;
    if items == [] {
      assert t == "]" + rest && t[1..] == rest;
    } else if |items| == 1 {
      var more := "]" + rest;
      assert t == BasicString(items[0]) + more && more[1..] == rest;
      ReadPrintedItem(items[0], more);
      assert items == [items[0]];
    } else {
      var next := Joined(items[1..]) + "]" + rest;
      var more := ", " + next;
      assert t == BasicString(items[0]) + more && more[1..] == " " + next;
      ReadPrintedItem(items[0], more);
      ReadPrintedItems(items[1..], rest);
      SkipsOneSpace(next);
      AllCleanStep(items);
    }
  }

  lemma AllCleanStep(items: seq<string>)
    requires items != []
    ensures items == [items[0]] + items[1..]
    ensures AllClean(items) <==> Clean(items[0]) && AllClean(items[1..])
  {
    assert forall i :: 0 < i < |items| ==> items[i] == items[1..][i - 1];
  }

  /** A space after the comma makes no difference. */
  lemma SkipsOneSpace(t: string)
    ensures ReadItems(" " + t) == ReadItems(t)
  {
    assert (" " + t)[1..] == t;
  }

  predicate IsKey(key: string) {
    key != "" && forall i :: 0 <= i < |key| ==> IsKeyChar(key[i])
  }

  lemma {:induction false} TakesWholeKey(key: string, t: string)
    requires forall i :: 0 <= i < |key| ==> IsKeyChar(key[i])
    requires t == "" || !IsKeyChar(t[0])
    ensures TakeKey(key + t) == (key, t)
  {
    if key == "" {
      assert key + t == t;
    } else {
      assert (key + t)[1..] == key[1..] + t;
      TakesWholeKey(key[1..], t);
      assert key == [key[0]] + key[1..];
    }
  }

  /** A printed line reads as its pair, given that its value reads. */
  lemma ReadPrintedLine(key: string, value: string, v: Option<Value>, rest: string)
    requires IsKey(key)
    requires value != "" && value[0] != ' ' && value[0] != '\t'
    requires ReadValue(value + "\n" + rest) == if v.None? then None else Some((v.value, "\n" + rest))
    ensures ReadPair(Line(key, value) + rest) == if v.None? then None else Some((key, v.value, rest))
  {
    hide ReadValue;
    var text := value + "\n" + rest;
    var after := " = " + text;
    assert Line(key, value) + rest == key + after;
    TakesWholeKey(key, after);
    SpaceSkipped("= " + text);
    assert after == " " + ("= " + text);
    assert ("= " + text)[1..] == " " + text;
    SpaceSkipped(text);
    assert EndLine("\n" + rest) == Some(rest) by {
      assert ("\n" + rest)[1..] == rest;
    }
  }

  lemma SpaceSkipped(t: string)
    requires t != "" && t[0] != ' ' && t[0] != '\t'
    ensures SkipSpaces(" " + t) == t && SkipSpaces(t) == t
  {
    assert (" " + t)[1..] == t;
  }

  /** One printed line of a document. */
  lemma ReadPrintedPair(key: string, value: string, v: Option<Value>, rest: string, table: map<string, Value>)
    requires IsKey(key) && key !in table
    requires value != "" && value[0] != ' ' && value[0] != '\t'
    requires ReadValue(value + "\n" + rest) == if v.None? then None else Some((v.value, "\n" + rest))
    ensures ReadDocument(Line(key, value) + rest, table) ==
            if v.None? then None else ReadDocument(rest, table[key := v.value])
  {
    ReadPrintedLine(key, value, v, rest);
    var t := Line(key, value) + rest;
    assert t[0] == key[0] && IsKeyChar(t[0]);
    assert SkipSpaces(t) == t;
  }

  lemma ReadStringPair(key: string, s: string, rest: string, table: map<string, Value>)
    requires IsKey(key) && key !in table
    ensures ReadDocument(Line(key, BasicString(s)) + rest, table) ==
            if Clean(s) then ReadDocument(rest, table[key := Str(s)]) else None
  {
    ReadPrintedString(s, "\n" + rest);
    assert BasicString(s) + ("\n" + rest) == BasicString(s) + "\n" + rest;
    ReadPrintedPair(key, BasicString(s), if Clean(s) then Some(Str(s)) else None, rest, table);
  }

  lemma ReadArrayPair(key: string, items: seq<string>, rest: string, table: map<string, Value>)
    requires IsKey(key) && key !in table
    ensures ReadDocument(Line(key, StringArray(items)) + rest, table) ==
            if AllClean(items) then ReadDocument(rest, table[key := Arr(items)]) else None
  {
    var t := StringArray(items) + "\n" + rest;
    assert t[1..] == Joined(items) + "]" + ("\n" + rest);
    ReadPrintedItems(items, "\n" + rest);
    ReadPrintedPair(key, StringArray(items), if AllClean(items) then Some(Arr(items)) else None, rest, table);
  }

  predicate NoControl(s: string) {
    forall i :: 0 <= i < |s| ==> !IsRawControl(s[i])
  }

  lemma TitleHasNoControl()
    ensures NoControl(TITLE)
  {
    TitleStart();
    TitleEnd();
  }

  lemma TitleStart()
    ensures NoControl(TITLE_WHAT)
  {
  }

  lemma TitleEnd()
    ensures NoControl(TITLE_WHO)
  {
  }

  /** The comment and the blank line in front of the pairs. */
  lemma ReadHeader(rest: string)
    ensures ReadDocument(HEADER + rest, map[]) == ReadDocument(rest, map[])
  {
    TitleHasNoControl();
    ReadComment(TITLE, "\n\n" + rest);
    assert HEADER + rest == "#" + TITLE + ("\n\n" + rest);
    assert ("\n\n" + rest)[1..] == "\n" + rest;
    assert ("\n" + rest)[1..] == rest;
  }

  lemma ReadComment(comment: string, t: string)
    requires forall i :: 0 <= i < |comment| ==> !IsRawControl(comment[i])
    requires t != "" && t[0] == '\n'
    ensures ReadDocument("#" + comment + t, map[]) == ReadDocument(t, map[])
  {
    var u := "#" + comment + t;
    assert u[1..] == comment + t;
    SkipsComment(comment, t);
    assert SkipSpaces(u) == u;
  }

  lemma {:induction false} SkipsComment(comment: string, t: string)
    requires forall i :: 0 <= i < |comment| ==> !IsRawControl(comment[i])
    requires t != "" && t[0] == '\n'
    ensures SkipComment(comment + t) == Some(t)
  {
    if comment == "" {
      assert comment + t == t;
    } else {
      assert (comment + t)[1..] == comment[1..] + t;
      SkipsComment(comment[1..], t);
    }
  }

  function ProfileTable(p: Profile): map<string, Value> {
    map["name" := Str(p.name)]["description" := Str(p.description)]
       ["auto_approve" := Arr(p.autoApprove)]["confirm" := Arr(p.confirm)]["deny" := Arr(p.deny)]
  }

  lemma ReadLists(p: Profile, table: map<string, Value>)
    requires "auto_approve" !in table && "confirm" !in table && "deny" !in table
    ensures
      var text := Line("auto_approve", StringArray(p.autoApprove))
                  + (Line("confirm", StringArray(p.confirm)) + Line("deny", StringArray(p.deny)));
      ReadDocument(text, table) ==
        if AllClean(p.autoApprove) && AllClean(p.confirm) && AllClean(p.deny)
        then Some(table["auto_approve" := Arr(p.autoApprove)]["confirm" := Arr(p.confirm)]["deny" := Arr(p.deny)])
        else None
  {
    var t5 := Line("deny", StringArray(p.deny));
    var t4 := Line("confirm", StringArray(p.confirm)) + t5;
    var m3 := table["auto_approve" := Arr(p.autoApprove)];
    var m4 := m3["confirm" := Arr(p.confirm)];
    var m5 := m4["deny" := Arr(p.deny)];
    assert ReadDocument("", m5) == Some(m5);
    KeysDiffer();
    hide ReadDocument, StringArray, AllClean, Line, IsKey;
    ReadArrayPair("auto_approve", p.autoApprove, t4, table);
    ReadArrayPair("confirm", p.confirm, t5, m3);
    assert t5 + "" == t5;
    ReadArrayPair("deny", p.deny, "", m4);
  }

  lemma KeysDiffer()
    ensures IsKey("name") && IsKey("description") && IsKey("auto_approve") && IsKey("confirm") && IsKey("deny")
    ensures "description" != "name" && "auto_approve" !in {"name", "description"}
    ensures "confirm" !in {"name", "description", "auto_approve"}
    ensures "deny" !in {"name", "description", "auto_approve", "confirm"}
  {
    assert "name"[0] != "deny"[0];
    assert |"name"| == 4 && |"description"| == 11 && |"auto_approve"| == 12 && |"confirm"| == 7 && |"deny"| == 4;
  }

  lemma ReadNames(p: Profile, rest: string)
    ensures
      var text := Line("name", BasicString(p.name)) + (Line("description", BasicString(p.description)) + rest);
      var table: map<string, Value> := map["name" := Str(p.name)]["description" := Str(p.description)];
      ReadDocument(text, map[]) == if Clean(p.name) && Clean(p.description) then ReadDocument(rest, table) else None
  {
    KeysDiffer();
    ReadStringPair("name", p.name, Line("description", BasicString(p.description)) + rest, map[]);
    ReadStringPair("description", p.description, rest, map["name" := Str(p.name)]);
  }

  /** The five printed pairs read as the five fields, and not at all if any string is unclean. */
  lemma ReadRendered(p: Profile)
    ensures ReadDocument(Rendered(p), map[]) == if CleanProfile(p) then Some(ProfileTable(p)) else None
  {
    var lists := Line("auto_approve", StringArray(p.autoApprove))
                 + (Line("confirm", StringArray(p.confirm)) + Line("deny", StringArray(p.deny)));
    ReadHeader(Line("name", BasicString(p.name)) + (Line("description", BasicString(p.description)) + lists));
    ReadNames(p, lists);
    var table: map<string, Value> := map["name" := Str(p.name)]["description" := Str(p.description)];
    assert table.Keys == {"name", "description"};
    KeysDiffer();
    ReadLists(p, table);
  }

  /**
   Round trip, exactly: a rendered profile loads back as itself if and only if
   it has a name and every string's control characters are newline, carriage
   return and tab; any other profile renders to text that does not load.
   */
  lemma ProfileRoundTrip(p: Profile)
    ensures ParseProfile(Rendered(p)) == if CleanProfile(p) && p.name != "" then Some(p) else None
  {
    ReadRendered(p);
  }

  /** Printing loses nothing: two clean named profiles that render alike are the same. */
  lemma RenderedInjective(p: Profile, q: Profile)
    requires CleanProfile(p) && p.name != "" && CleanProfile(q) && q.name != ""
    requires Rendered(p) == Rendered(q)
    ensures p == q
  {
    ProfileRoundTrip(p);
    ProfileRoundTrip(q);
  }
}
