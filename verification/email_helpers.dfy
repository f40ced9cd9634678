/** Formatting helpers of the notification emails (services/emailService.js):
    the "time ago" label, the attachment icon by file extension, the
    priority and status badges, and the field extraction from the task
    details fragment.  The HTML templates and the mail transport are not
    part of this model. */
module EmailHelpers {
  import opened Common

  // ---------------------------------------------------------------------
  // Time ago
  // ---------------------------------------------------------------------

  datatype Unit = Seconds | Minutes | Hours | Days

  function UnitSuffix(u: Unit): char {
    match u
    case Seconds => 's'
    case Minutes => 'm'
    case Hours => 'h'
    case Days => 'd'
  }

  function UnitSeconds(u: Unit): int {
    match u
    case Seconds => 1
    case Minutes => 60
    case Hours => 3600
    case Days => 86400
  }

  /** The bucket of an elapsed time in whole seconds: raw seconds below a
      minute (negative for future dates), then whole minutes below an hour,
      whole hours below a day, and whole days. */
  function TimeAgoParts(diff: int): (r: (int, Unit))
    ensures r.1 == Seconds <==> diff < 60
    ensures r.1 == Seconds ==> r.0 == diff
    ensures r.1 == Minutes ==> 1 <= r.0 < 60
    ensures r.1 == Hours ==> 1 <= r.0 < 24
    ensures r.1 == Days ==> r.0 >= 1
    ensures r.1 != Seconds ==> r.0 * UnitSeconds(r.1) <= diff < r.0 * UnitSeconds(r.1) + UnitSeconds(r.1)
  {
    if diff < 60 then (diff, Seconds)
    else if diff < 3600 then (FloorDiv(diff, 60), Minutes)
    else if diff < 86400 then (FloorDiv(diff, 3600), Hours)
    else (FloorDiv(diff, 86400), Days)
  }

  /** `getTimeAgo`: '' without a date, else "<n><unit> ago" for the elapsed
      milliseconds floored to seconds. */
  function TimeAgo(date: Option<int>, now: int): (r: string)
    ensures date.None? <==> r == ""
  {
    match date
    case None => ""
    case Some(then_) =>
      var (n, u) := TimeAgoParts(FloorDiv(now - then_, 1000));
      IntToString(n) + [UnitSuffix(u)] + " ago"
  }

  // ---------------------------------------------------------------------
  // File type icon
  // ---------------------------------------------------------------------

  /** The text after the last '.', or the whole name when there is none
      (`split('.').pop()`). */
  function Extension(name: string): (r: string)
    ensures |r| <= |name| && r == name[|name| - |r|..]
    ensures '.' !in r
    ensures |r| == |name| || name[|name| - |r| - 1] == '.'
  {
    if name == [] then []
    else if name[|name| - 1] == '.' then []
    else Extension(name[..|name| - 1]) + [name[|name| - 1]]
  }

  lemma ExtensionOfJoin(base: string, ext: string)
    requires '.' !in ext
    ensures Extension(base + "." + ext) == ext
    decreases |ext|
  {
    if ext != [] {
      var s := base + "." + ext;
      assert s[..|s| - 1] == base + "." + ext[..|ext| - 1];
      ExtensionOfJoin(base, ext[..|ext| - 1]);
    } else {
      assert (base + "." + ext)[|base|] == '.';
    }
  }

  datatype Icon = Photo | Pdf | Document | Spreadsheet | Slides | Archive | Audio | Movie | Paperclip

  function Glyph(i: Icon): string {
    match i
    case Photo => "📷"
    case Pdf => "📄"
    case Document => "📝"
    case Spreadsheet => "📊"
    case Slides => "📈"
    case Archive => "📦"
    case Audio => "🎵"
    case Movie => "🎬"
    case Paperclip => "📎"
  }

  /** The extension lists, in the order they are tried. */
  const IconTable: seq<(seq<string>, Icon)> := [
    (["jpg", "jpeg", "png", "gif", "bmp", "svg", "webp"], Photo),
    (["pdf"], Pdf),
    (["doc", "docx", "odt", "rtf"], Document),
    (["xls", "xlsx", "csv"], Spreadsheet),
    (["ppt", "pptx"], Slides),
    (["zip", "rar", "7z", "tar", "gz"], Archive),
    (["mp3", "wav", "ogg"], Audio),
    (["mp4", "mov", "avi", "wmv", "mkv"], Movie)]

  function IconOf(ext: string, table: seq<(seq<string>, Icon)>): (i: Icon)
    ensures i == Paperclip || exists k :: 0 <= k < |table| && ext in table[k].0 && table[k].1 == i
    ensures (forall k :: 0 <= k < |table| ==> ext !in table[k].0) ==> i == Paperclip
  {
    if table == [] then Paperclip
    else if ext in table[0].0 then table[0].1
    else
      var i := IconOf(ext, table[1..]);
      assert forall k :: 1 <= k < |table| ==> table[k] == table[1..][k - 1];
      i
  }

  /** `getFileTypeIcon`: classified by the lower-cased extension. */
  function FileTypeIcon(filename: string): Icon {
    IconOf(Lower(Extension(filename)), IconTable)
  }

  /** An unlisted extension gets the paper clip, whatever its case. */
  lemma UnknownExtensionIsPaperclip(filename: string)
    requires forall k :: 0 <= k < |IconTable| ==> Lower(Extension(filename)) !in IconTable[k].0
    ensures FileTypeIcon(filename) == Paperclip
  {
  }

  lemma LowerUpper(ext: string)
    ensures Lower(Upper(ext)) == Lower(ext)
    ensures '.' in ext <==> '.' in Upper(ext)
  {
    assert forall i :: 0 <= i < |ext| ==> Lower(Upper(ext))[i] == Lower(ext)[i];
    assert forall i :: 0 <= i < |ext| ==> (ext[i] == '.' <==> Upper(ext)[i] == '.');
  }

  /** The icon ignores everything before the last dot and the letter case. */
  lemma IconIgnoresCaseAndBase(base: string, ext: string, base2: string)
    requires '.' !in ext
    ensures FileTypeIcon(base + "." + ext) == FileTypeIcon(base2 + "." + Upper(ext))
  {
    LowerUpper(ext);
    ExtensionOfJoin(base, ext);
    ExtensionOfJoin(base2, Upper(ext));
  }

  // ---------------------------------------------------------------------
  // Badges
  // ---------------------------------------------------------------------

  datatype Palette = Palette(color: string, bg: string, border: string)

  const Red := Palette("#dc2626", "#fee2e2", "#f87171")
  const Green := Palette("#16a34a", "#dcfce7", "#4ade80")
  const Amber := Palette("#d97706", "#fef3c7", "#fbbf24")
  const Grey := Palette("#6b7280", "#f9fafb", "#d1d5db")
  const Violet := Palette("#6B39E7", "#f3f4f6", "#a78bfa")

  /** `getPriorityBadge`: High is red, Low green, anything else amber; the
      label is the priority itself. */
  function PriorityBadge(priority: string): (r: (Palette, string))
    ensures r.1 == priority
    ensures r.0 == Red <==> priority == "High"
    ensures r.0 == Green <==> priority == "Low"
    ensures r.0 == Amber <==> priority != "High" && priority != "Low"
  {
    if priority == "High" then (Red, priority)
    else if priority == "Low" then (Green, priority)
    else (Amber, priority)
  }

  /** `getStatusBadge` on a numeric status. */
  function StatusBadge(status: int): (r: (Palette, string))
    ensures r.1 == "Not Assigned" <==> status == 1
    ensures r.1 == "In Progress" <==> status == 3
    ensures r.1 == "Completed" <==> status == 4
    ensures r.1 == "Assigned" <==> status != 1 && status != 3 && status != 4
    ensures r.0 == Violet <==> r.1 == "Assigned"
  {
    if status == 1 then (Grey, "Not Assigned")
    else if status == 3 then (Amber, "In Progress")
    else if status == 4 then (Green, "Completed")
    else (Violet, "Assigned")
  }

  // ---------------------------------------------------------------------
  // Task details fragment
  // ---------------------------------------------------------------------

  /** The longest prefix without the character `c`. */
  function Until(s: string, c: char): (r: string)
    ensures |r| <= |s| && r == s[..|r|]
    ensures c !in r
    ensures |r| == |s| || s[|r|] == c
  {
    if s == [] || s[0] == c then [] else [s[0]] + Until(s[1..], c)
  }

  /** The longest prefix of white space. */
  function Spaces(s: string): (r: string)
    ensures |r| <= |s| && r == s[..|r|]
    ensures IsBlank(r)
    ensures |r| == |s| || !IsSpace(s[|r|])
  {
    if s == [] || !IsSpace(s[0]) then [] else [s[0]] + Spaces(s[1..])
  }

  const StrongOpen := "<strong>"
  const StrongClose := "</strong>"
  const Br := "<br>"

  /** The tail `\s*([^<]*)<br>` of an entry: the value and the length. */
  function ValueAt(b: string): (r: Option<(string, nat)>)
    ensures r.Some? ==> 0 < r.value.1 <= |b|
  {
    var ws := Spaces(b);
    var v := Until(b[|ws|..], '<');
    if StartsWith(b[|ws| + |v|..], Br) then Some((v, |ws| + |v| + |Br|)) else None
  }

  /** A match of `<strong>([^:]+):</strong>\s*([^<]*)<br>` at the start of
      `s`: the field, the value and the length of the match.  The field runs
      to the first ':' and must be non-empty. */
  function EntryAt(s: string): (r: Option<(string, string, nat)>)
    ensures r.Some? ==> 0 < r.value.2 <= |s|
  {
    if !StartsWith(s, StrongOpen) then None
    else
      var rest := s[|StrongOpen|..];
      var key := Until(rest, ':');
      if key == [] || |key| == |rest| then None
      else
        var a := rest[|key| + 1..];
        if !StartsWith(a, StrongClose) then None
        else
          WithKey(key, ValueAt(a[|StrongClose|..]))
  }

  /** The whole match from its field and its value part. */
  function WithKey(key: string, vr: Option<(string, nat)>): Option<(string, string, nat)> {
    match vr
    case None => None
    case Some((v, n)) => Some((key, v, |StrongOpen| + |key| + 1 + |StrongClose| + n))
  }

  /** The global scan: try at every position, resume after each match. */
  function ScanEntries(s: string): seq<(string, string)>
    decreases |s|
  {
    if s == [] then []
    else match EntryAt(s)
      case Some((k, v, n)) => [(Trim(k), Trim(v))] + ScanEntries(s[n..])
      case None => ScanEntries(s[1..])
  }

  /** Later assignments of the same field win. */
  function Assign(m: map<string, string>, kvs: seq<(string, string)>): map<string, string>
    decreases |kvs|
  {
    if kvs == [] then m else Assign(m[kvs[0].0 := kvs[0].1], kvs[1..])
  }

  /** The first occurrence of `<strong><field>:</strong>\s*([^<]*)`, with or
      without a following `<br>`. */
  function LabelValue(s: string, field: string, needBr: bool): Option<string>
    decreases |s|
  {
    if s == [] then None
    else
      var head := StrongOpen + field + ":" + StrongClose;
      if StartsWith(s, head) then
        var b := s[|head|..];
        var ws := Spaces(b);
        var v := Until(b[|ws|..], '<');
        if !needBr || StartsWith(b[|ws| + |v|..], Br) then Some(v) else LabelValue(s[1..], field, needBr)
      else LabelValue(s[1..], field, needBr)
  }

  const AssignedDate: string := "Assigned Date"
  const Description: string := "Description"

  /** `parseTaskDetails`: nothing for a missing or empty fragment. */
  function ParseTaskDetails(html: Option<string>): (r: map<string, string>)
    ensures html.None? || html == Some("") ==> r == map[]
  {
    if html.None? || html == Some("") then map[] else ParseFragment(html.value)
  }

  /** Every matched field, later ones winning, and then the assigned date and
      the description read by their own patterns, which win over the scan. */
  function ParseFragment(s: string): (r: map<string, string>)
    ensures LabelValue(s, Description, true).Some? ==>
      Description in r && r[Description] == Trim(LabelValue(s, Description, true).value)
    ensures LabelValue(s, AssignedDate, false).Some? ==>
      AssignedDate in r && r[AssignedDate] == Trim(LabelValue(s, AssignedDate, false).value)
  {
    var m := Assign(map[], ScanEntries(s));
    var m1 := match LabelValue(s, AssignedDate, false) case Some(v) => m[AssignedDate := Trim(v)] case None => m;
    assert |Description| != |AssignedDate|;
    match LabelValue(s, Description, true) case Some(v) => m1[Description := Trim(v)] case None => m1
  }

  /** Every other field is the last value the general scan read for it. */
  lemma ParseFragmentOthers(s: string, key: string)
    requires key != AssignedDate && key != Description
    ensures var m := Assign(map[], ScanEntries(s));
      (key in ParseFragment(s) <==> key in m) && (key in m ==> ParseFragment(s)[key] == m[key])
  {
    assert |Description| != |AssignedDate|;
  }

  /** A field written as `<strong>Field:</strong> value<br>`. */
  predicate GoodField(key: string, value: string) {
    key != [] && ':' !in key && '<' !in key && '<' !in value && key != AssignedDate && key != Description
  }

  function Render(key: string, value: string): string {
    StrongOpen + key + ":" + StrongClose + " " + value + Br
  }

  lemma {:induction false} TrimStartAfterSpaces(s: string, k: nat)
    requires k <= |s| && IsBlank(s[..k])
    ensures TrimStart(s[k..]) == TrimStart(s)
    decreases k
  {
    if k > 0 {
      assert IsSpace(s[..k][0]);
      assert s[1..][..k - 1] == s[1..k];
      TrimStartAfterSpaces(s[1..], k - 1);
      assert s[1..][k - 1..] == s[k..];
    }
  }

  /** Dropping leading white space does not change the trimmed text. */
  lemma TrimAfterSpaces(s: string, k: nat)
    requires k <= |s| && IsBlank(s[..k])
    ensures Trim(s[k..]) == Trim(s)
  {
    TrimStartAfterSpaces(s, k);
  }

  lemma {:induction false} SpacesOf(x: string, t: string)
    requires t == [] || !IsSpace(t[0])
    ensures |Spaces(x + t)| <= |x| && Spaces(x + t) == Spaces(x)
  {
    if x == [] {
      assert x + t == t;
    } else {
      assert (x + t)[1..] == x[1..] + t;
      SpacesOf(x[1..], t);
    }
  }

  lemma {:induction false} UntilOf(a: string, c: char, t: string)
    requires c !in a && |t| > 0 && t[0] == c
    ensures Until(a + t, c) == a
  {
    if a != [] {
      assert (a + t)[1..] == a[1..] + t;
      UntilOf(a[1..], c, t);
    } else {
      assert a + t == t;
    }
  }

  /** Text without '<' followed by `<br>` is read whole: the value is the
      text after its leading white space. */
  lemma ValueAtParts(sv: string, t: string)
    requires '<' !in sv && StartsWith(t, Br)
    ensures ValueAt(sv + t) == Some((sv[|Spaces(sv)|..], |sv| + |Br|))
  {
    assert t[0] == '<';
    SpacesOf(sv, t);
    var k := |Spaces(sv)|;
    DropAppend(sv, t, k);
    NotInSuffix(sv, '<', k);
    UntilOf(sv[k..], '<', t);
    DropAppend(sv, t, |sv|);
    ValueAtMatch(sv + t, Spaces(sv), sv[|Spaces(sv)|..], |sv| + |Br|);
  }

  lemma DropAppend<T>(a: seq<T>, t: seq<T>, k: nat)
    requires k <= |a|
    ensures (a + t)[k..] == a[k..] + t
  {
  }

  lemma NotInSuffix<T>(a: seq<T>, x: T, k: nat)
    requires x !in a && k <= |a|
    ensures x !in a[k..]
  {
    assert forall i :: 0 <= i < |a| - k ==> a[k..][i] == a[k + i];
  }

  lemma ValueAtMatch(b: string, ws: string, v: string, n: nat)
    requires ws == Spaces(b) && v == Until(b[|ws|..], '<') && StartsWith(b[|ws| + |v|..], Br)
    requires n == |ws| + |v| + |Br|
    ensures ValueAt(b) == Some((v, n))
  {
  }

  /** What follows the field's closing tag is read up to `<br>`, and the
      value trims to the written one. */
  lemma ValueAtRendered(value: string, rest: string)
    requires '<' !in value
    ensures var r := ValueAt(" " + value + Br + rest);
      r.Some? && Trim(r.value.0) == Trim(value) && r.value.1 == 1 + |value| + |Br|
  {
    var sv := " " + value;
    assert '<' !in sv;
    assert " " + value + Br + rest == sv + (Br + rest);
    ValueAtParts(sv, Br + rest);
    SpacedTrim(value);
  }

  /** A field name up to the first ':' followed by the closing tag hands
      the rest to the value part. */
  lemma EntryAtKey(key: string, tail: string)
    requires key != [] && ':' !in key
    ensures EntryAt(StrongOpen + key + ":" + StrongClose + tail) == WithKey(key, ValueAt(tail))
  {
    var t := ":" + StrongClose + tail;
    var s := StrongOpen + (key + t);
    assert StrongOpen + key + ":" + StrongClose + tail == s;
    assert s[|StrongOpen|..] == key + t;
    assert StartsWith(s, StrongOpen);
    var rest := s[|StrongOpen|..];
    UntilOf(key, ':', t);
    assert Until(rest, ':') == key && |key| < |rest|;
    var a := rest[|key| + 1..];
    assert a == StrongClose + tail;
    assert StartsWith(a, StrongClose);
    assert a[|StrongClose|..] == tail;
  }

  lemma EntryAtRendered(key: string, value: string, rest: string)
    requires GoodField(key, value)
    ensures var r := EntryAt(Render(key, value) + rest);
      r.Some? && r.value.0 == key && Trim(r.value.1) == Trim(value) && r.value.2 == |Render(key, value)|
  {
    var tail := " " + value + Br + rest;
    assert Render(key, value) + rest == StrongOpen + key + ":" + StrongClose + tail;
    EntryAtKey(key, tail);
    ValueAtRendered(value, rest);
  }

  function RenderAll(fields: seq<(string, string)>): string {
    if fields == [] then [] else Render(fields[0].0, fields[0].1) + RenderAll(fields[1..])
  }

  function TrimValues(fields: seq<(string, string)>): seq<(string, string)> {
    if fields == [] then [] else [(fields[0].0, Trim(fields[0].1))] + TrimValues(fields[1..])
  }

  /** A fragment made of well-formed fields is read back field by field,
      with trimmed values. */
  lemma {:induction false} ScanRendered(fields: seq<(string, string)>)
    requires forall k :: 0 <= k < |fields| ==> GoodField(fields[k].0, fields[k].1)
    requires forall k :: 0 <= k < |fields| ==> Trim(fields[k].0) == fields[k].0
    ensures ScanEntries(RenderAll(fields)) == TrimValues(fields)
  {
    if fields != [] {
      var (k, v) := fields[0];
      var rest := RenderAll(fields[1..]);
      EntryAtRendered(k, v, rest);
      var s := Render(k, v) + rest;
      assert RenderAll(fields) == s;
      assert s != [];
      assert s[|Render(k, v)|..] == rest;
      ScanRendered(fields[1..]);
    }
  }

  /** Whatever the assigned-date pattern reads is what the parser reports. */
  lemma ReadAssignedDate(s: string, v: string)
    requires LabelValue(s, AssignedDate, false) == Some(v)
    ensures AssignedDate in ParseTaskDetails(Some(s)) && ParseTaskDetails(Some(s))[AssignedDate] == Trim(v)
  {
    assert s != [];
    assert ParseTaskDetails(Some(s)) == ParseFragment(s);
  }

  /** The assigned date is read even when it closes the fragment with no
      `<br>` after it, where the general field pattern needs one; with
      `ReadAssignedDate` the parser then reports the trimmed value. */
  lemma AssignedDateWithoutBreak(value: string)
    requires '<' !in value
    ensures var s := StrongOpen + AssignedDate + ":" + StrongClose + " " + value;
      LabelValue(s, AssignedDate, false).Some? && Trim(LabelValue(s, AssignedDate, false).value) == Trim(value)
  {
    var head := StrongOpen + AssignedDate + ":" + StrongClose;
    var sv := " " + value;
    var s := head + sv;
    assert StrongOpen + AssignedDate + ":" + StrongClose + " " + value == s;
    assert s[|head|..] == sv;
    SpacesOf(sv, []);
    assert sv + [] == sv;
    var k := |Spaces(sv)|;
    var v := sv[k..];
    UntilAll(v, '<');
    assert StartsWith(s, head);
    assert LabelValue(s, AssignedDate, false) == Some(v);
    SpacedTrim(value);
  }

  /** Skipping the spaces after the tag leaves the trimmed value as it was. */
  lemma SpacedTrim(value: string)
    ensures var sv := " " + value;
      |Spaces(sv)| <= |sv| && Trim(sv[|Spaces(sv)|..]) == Trim(value)
  {
    var sv := " " + value;
    SpacesOf(sv, []);
    assert sv + [] == sv;
    TrimAfterSpaces(sv, |Spaces(sv)|);
    TrimAfterSpaces(sv, 1);
    assert sv[1..] == value;
  }

  lemma {:induction false} UntilAll(a: string, c: char)
    requires c !in a
    ensures Until(a, c) == a
  {
    if a != [] {
      UntilAll(a[1..], c);
    }
  }
}
