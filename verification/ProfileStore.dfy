/** Profiles on disk: `<dir>/<id>.json` per profile plus `<dir>/active.json`. Files hold JSON values;
    a file that is not JSON text is `Corrupt`. */
module Profiles {
  import opened Text

  datatype Profile = Profile(id: string, name: string, description: string, settings: seq<Entry<string>>)

  datatype Json = Str(text: string) | Obj(fields: seq<Entry<Json>>) | Other

  datatype File = Regular(doc: Json) | Corrupt | NotRegular

  type Files = map<string, File>

  // ---------------------------------------------------------------- reading one file

  /** `Raised`: `doc.value` throws on a name or description that is present but not a string. */
  datatype Read = Parsed(profile: Profile) | Rejected | Raised

  function TextField(doc: Json, key: string, default: string): (r: Option<string>)
    requires doc.Obj?
  {
    match Lookup<Json>(doc.fields, key)
    case None => Some(default)
    case Some(Str(text)) => Some(text)
    case Some(_) => None
  }

  /** The string-valued entries of the settings object, in order. */
  function StringEntries(fields: seq<Entry<Json>>): seq<Entry<string>> {
    if fields == [] then []
    else
      var n := |fields| - 1;
      StringEntries(fields[..n]) + (if fields[n].value.Str? then [Entry(fields[n].key, fields[n].value.text)] else [])
  }

  lemma {:induction false} EntriesBelow(fields: seq<Entry<Json>>, bound: string)
    requires forall i :: 0 <= i < |fields| ==> Less(fields[i].key, bound)
    ensures forall i :: 0 <= i < |StringEntries(fields)| ==> Less(StringEntries(fields)[i].key, bound)
  {
    if fields != [] { EntriesBelow(fields[..|fields| - 1], bound); }
  }

  function SettingsOf(doc: Json): seq<Entry<string>>
    requires doc.Obj?
  {
    match Lookup<Json>(doc.fields, "settings")
    case Some(Obj(fields)) => StringEntries(fields)
    case _ => []
  }

  function Decode(file: File): Read {
    if !file.Regular? || !file.doc.Obj? then Rejected
    else match Lookup<Json>(file.doc.fields, "id")
      case Some(Str(id)) =>
        (match (TextField(file.doc, "name", id), TextField(file.doc, "description", ""))
         case (Some(name), Some(description)) => Parsed(Profile(id, name, description, SettingsOf(file.doc)))
         case _ => Raised)
      case _ => Rejected
  }

  /** nlohmann's object is an ordered map, so its keys come in ascending order. */
  predicate WellFormed(doc: Json) {
    doc.Obj? ==>
      && Ordered(doc.fields)
      && forall i :: 0 <= i < |doc.fields| ==> WellFormed(doc.fields[i].value)
  }

  // ---------------------------------------------------------------- writing one file

  function StringObject(settings: seq<Entry<string>>): (fields: seq<Entry<Json>>)
    ensures |fields| == |settings|
    ensures forall i :: 0 <= i < |settings| ==> fields[i] == Entry(settings[i].key, Str(settings[i].value))
  {
    seq(|settings|, i requires 0 <= i < |settings| => Entry(settings[i].key, Str(settings[i].value)))
  }

  function Encode(profile: Profile): Json {
    var doc := Insert([], "id", Str(profile.id));
    var doc := Insert(doc, "name", Str(profile.name));
    var doc := Insert(doc, "description", Str(profile.description));
    Obj(Insert(doc, "settings", Obj(StringObject(profile.settings))))
  }

  lemma {:induction false} StringsBack(settings: seq<Entry<string>>)
    ensures StringEntries(StringObject(settings)) == settings
  {
    if settings != [] {
      var n := |settings| - 1;
      StringsBack(settings[..n]);
      assert StringObject(settings)[..n] == StringObject(settings[..n]);
      assert settings == settings[..n] + [settings[n]];
    }
  }

  lemma FirstLetterDecides(a: string, b: string)
    requires a != [] && b != [] && a[0] < b[0]
    ensures Less(a, b) && !Less(b, a) && a != b
  {
  }

  lemma EncodedFields(profile: Profile)
    ensures Encode(profile) == Obj([Entry("description", Str(profile.description)), Entry("id", Str(profile.id)),
                                    Entry("name", Str(profile.name)),
                                    Entry("settings", Obj(StringObject(profile.settings)))])
    ensures Ordered(Encode(profile).fields)
  {
    var id, name := Entry("id", Str(profile.id)), Entry("name", Str(profile.name));
    var description := Entry("description", Str(profile.description));
    var settings := Entry("settings", Obj(StringObject(profile.settings)));
    FirstLetterDecides("description", "id");
    FirstLetterDecides("description", "name");
    FirstLetterDecides("description", "settings");
    FirstLetterDecides("id", "name");
    FirstLetterDecides("id", "settings");
    FirstLetterDecides("name", "settings");
    var two, three := [id, name], [description, id, name];
    assert Insert<Json>([], "id", id.value) == [id];
    assert Insert([id], "name", name.value) == two by {
      InsertLast([id], "name", name.value);
      assert [id] + [name] == two;
    }
    assert Insert(two, "description", description.value) == three by { assert [description] + two == three; }
    assert Insert(three, "settings", settings.value) == three + [settings] by { InsertLast(three, "settings", settings.value); }
    assert three + [settings] == [description, id, name, settings];
  }

  /** Reading back what was written gives the same profile. */
  lemma DecodeEncode(profile: Profile)
    ensures Decode(Regular(Encode(profile))) == Parsed(profile)
  {
    EncodedFields(profile);
    DecodeFields(Encode(profile).fields, profile);
  }

  lemma DecodeFields(fields: seq<Entry<Json>>, profile: Profile)
    requires |fields| == 4 && Ordered(fields)
    requires fields[0] == Entry("description", Str(profile.description)) && fields[1] == Entry("id", Str(profile.id))
    requires fields[2] == Entry("name", Str(profile.name))
    requires fields[3] == Entry("settings", Obj(StringObject(profile.settings)))
    ensures Decode(Regular(Obj(fields))) == Parsed(profile)
  {
    FieldValues(fields);
    StringsBack(profile.settings);
    assert TextField(Obj(fields), "name", profile.id) == Some(profile.name);
    assert TextField(Obj(fields), "description", "") == Some(profile.description);
    assert SettingsOf(Obj(fields)) == profile.settings;
  }

  lemma FieldValues(fields: seq<Entry<Json>>)
    requires |fields| == 4 && Ordered(fields)
    requires fields[0].key == "description" && fields[1].key == "id"
    requires fields[2].key == "name" && fields[3].key == "settings"
    ensures Lookup(fields, "description") == Some(fields[0].value) && Lookup(fields, "id") == Some(fields[1].value)
    ensures Lookup(fields, "name") == Some(fields[2].value) && Lookup(fields, "settings") == Some(fields[3].value)
  {
    LookupAt(fields, 0);
    LookupAt(fields, 1);
    LookupAt(fields, 2);
    LookupAt(fields, 3);
  }

  /** The settings loop: string values only, each stored under its key. */
  method ParseSettings(fields: seq<Entry<Json>>) returns (settings: seq<Entry<string>>)
    requires Ordered(fields)
    ensures settings == StringEntries(fields)
  {
    settings := [];
    for i := 0 to |fields|
      invariant settings == StringEntries(fields[..i])
    {
      assert fields[..i + 1][..i] == fields[..i];
      if fields[i].value.Str? {
        EntriesBelow(fields[..i], fields[i].key);
        InsertLast(settings, fields[i].key, fields[i].value.text);
        settings := Insert(settings, fields[i].key, fields[i].value.text);
      }
    }
    assert fields[..|fields|] == fields;
  }

  lemma FieldWellFormed(doc: Json, key: string)
    requires doc.Obj? && WellFormed(doc) && Lookup<Json>(doc.fields, key).Some?
    ensures WellFormed(Lookup<Json>(doc.fields, key).value)
  {
  }

  method ParseProfileFile(file: File) returns (read: Read)
    requires file.Regular? ==> WellFormed(file.doc)
    ensures read == Decode(file)
  {
    if !file.Regular? || !file.doc.Obj? {
      return Rejected;
    }
    var doc := file.doc;
    var id := Lookup<Json>(doc.fields, "id");
    if id.None? || !id.value.Str? {
      return Rejected;
    }
    var name, description := TextField(doc, "name", id.value.text), TextField(doc, "description", "");
    if name.None? || description.None? {
      return Raised;
    }
    var settings: seq<Entry<string>> := [];
    var found := Lookup<Json>(doc.fields, "settings");
    if found.Some? && found.value.Obj? {
      FieldWellFormed(doc, "settings");
      settings := ParseSettings(found.value.fields);
    }
    return Parsed(Profile(id.value.text, name.value, description.value, settings));
  }

  // ---------------------------------------------------------------- what a file says

  lemma {:induction false} StringEntriesExactly(fields: seq<Entry<Json>>, key: string, text: string)
    ensures Entry(key, text) in StringEntries(fields) <==> Entry(key, Str(text)) in fields
  {
    if fields != [] {
      var n := |fields| - 1;
      StringEntriesExactly(fields[..n], key, text);
      assert fields == fields[..n] + [fields[n]];
    }
  }

  /** An optional text: what the field says, the default when there is none, and neither when it is not
      a text. */
  ghost predicate TextIs(fields: seq<Entry<Json>>, key: string, default: string, text: string) {
    || Entry(key, Str(text)) in fields
    || (text == default && forall i :: 0 <= i < |fields| ==> fields[i].key != key)
  }

  lemma TextFieldReads(fields: seq<Entry<Json>>, key: string, default: string, text: string)
    requires Ordered(fields)
    ensures TextField(Obj(fields), key, default) == Some(text) <==> TextIs(fields, key, default, text)
  {
    LookupIff(fields, key, Str(text));
    if TextField(Obj(fields), key, default) == Some(text) && Lookup<Json>(fields, key).Some? {
      LookupIff(fields, key, Lookup<Json>(fields, key).value);
    }
  }

  /** A setting of the file: a text inside its settings object. */
  ghost predicate SettingIs(fields: seq<Entry<Json>>, key: string, text: string) {
    exists settings :: Entry("settings", Obj(settings)) in fields && Entry(key, Str(text)) in settings
  }

  lemma SettingsRead(fields: seq<Entry<Json>>, key: string, text: string)
    requires Ordered(fields)
    ensures Entry(key, text) in SettingsOf(Obj(fields)) <==> SettingIs(fields, key, text)
  {
    forall settings | Entry("settings", Obj(settings)) in fields
      ensures Lookup<Json>(fields, "settings") == Some(Obj(settings))
    {
      LookupIff(fields, "settings", Obj(settings));
    }
    match Lookup<Json>(fields, "settings")
    case Some(Obj(settings)) =>
      LookupIff(fields, "settings", Obj(settings));
      StringEntriesExactly(settings, key, text);
    case _ =>
  }

  /** Field by field, what profile a JSON object holds: its id, its name (the id if it has none), its
      description (empty if it has none) and its textual settings, and no other. */
  lemma DecodeReads(fields: seq<Entry<Json>>, profile: Profile)
    requires Ordered(fields)
    ensures Decode(Regular(Obj(fields))) == Parsed(profile) ==>
              && Entry("id", Str(profile.id)) in fields
              && TextIs(fields, "name", profile.id, profile.name) && TextIs(fields, "description", "", profile.description)
              && forall key, text :: Entry(key, text) in profile.settings <==> SettingIs(fields, key, text)
  {
    if Decode(Regular(Obj(fields))) == Parsed(profile) {
      DecodeParts(fields, profile);
      LookupIff(fields, "id", Str(profile.id));
      TextFieldReads(fields, "name", profile.id, profile.name);
      TextFieldReads(fields, "description", "", profile.description);
      AllSettingsRead(fields);
    }
  }

  lemma DecodeParts(fields: seq<Entry<Json>>, profile: Profile)
    ensures Decode(Regular(Obj(fields))) == Parsed(profile) ==>
              && Lookup<Json>(fields, "id") == Some(Str(profile.id))
              && TextField(Obj(fields), "name", profile.id) == Some(profile.name)
              && TextField(Obj(fields), "description", "") == Some(profile.description)
              && profile.settings == SettingsOf(Obj(fields))
  {
  }

  lemma AllSettingsRead(fields: seq<Entry<Json>>)
    requires Ordered(fields)
    ensures forall key, text :: Entry(key, text) in SettingsOf(Obj(fields)) <==> SettingIs(fields, key, text)
  {
    forall key, text ensures Entry(key, text) in SettingsOf(Obj(fields)) <==> SettingIs(fields, key, text) {
      SettingsRead(fields, key, text);
    }
  }

  /** Which objects are profiles at all. */
  lemma DecodeAccepts(fields: seq<Entry<Json>>)
    requires Ordered(fields)
    ensures var read := Decode(Regular(Obj(fields)));
            && (read.Rejected? <==> forall id :: Entry("id", Str(id)) !in fields)
            && (read.Parsed? <==> exists id, name, description ::
                  && Entry("id", Str(id)) in fields && TextIs(fields, "name", id, name)
                  && TextIs(fields, "description", "", description))
  {
    var read := Decode(Regular(Obj(fields)));
    if read.Parsed? { DecodeReads(fields, read.profile); }
    forall id | Entry("id", Str(id)) in fields ensures Lookup<Json>(fields, "id") == Some(Str(id)) {
      LookupIff(fields, "id", Str(id));
    }
    if !read.Rejected? { LookupIff(fields, "id", Lookup<Json>(fields, "id").value); }
    if id, name, description :| Entry("id", Str(id)) in fields && TextIs(fields, "name", id, name)
                                && TextIs(fields, "description", "", description) {
      TextFieldReads(fields, "name", id, name);
      TextFieldReads(fields, "description", "", description);
    }
  }

  // ---------------------------------------------------------------- the directory

  function FileOf(id: string): string { id + ".json" }
  function TempOf(id: string): string { id + ".json.tmp" }

  function ReadProfile(files: Files, id: string): Read {
    if FileOf(id) in files then Decode(files[FileOf(id)]) else Rejected
  }

  /** `ActiveId`: anything unreadable counts as no active profile. */
  function ActiveOf(files: Files): string {
    if FileOf("active") !in files || !files[FileOf("active")].Regular? || !files[FileOf("active")].doc.Obj? then ""
    else match Lookup<Json>(files[FileOf("active")].doc.fields, "active")
      case Some(Str(id)) => id
      case _ => ""
  }

  lemma NamesApart(a: string, b: string)
    ensures FileOf(a) == FileOf(b) <==> a == b
    ensures FileOf(a) != TempOf(b)
  {
    assert FileOf(a)[..|a|] == a && FileOf(b)[..|b|] == b;
    assert FileOf(a)[|FileOf(a)| - 1] == 'n';
    assert TempOf(b)[|TempOf(b)| - 1] == 'p';
  }

  /** Replacing a file through a temporary: truncate the temporary, write it, rename it over the file. */
  function Truncated(files: Files, id: string): Files { files[TempOf(id) := Corrupt] }
  function Written(files: Files, id: string, doc: Json): Files { files[TempOf(id) := Regular(doc)] }
  function Renamed(files: Files, id: string): Files {
    if TempOf(id) in files then (files - {TempOf(id)})[FileOf(id) := files[TempOf(id)]] else files
  }

  /** The directory after each of the steps. */
  function ReplaceSteps(files: Files, id: string, doc: Json): (steps: seq<Files>)
    ensures |steps| == 4 && steps[0] == files
  {
    var truncated := Truncated(files, id);
    var written := Written(truncated, id, doc);
    [files, truncated, written, Renamed(written, id)]
  }

  /** The last step that happened: none when the temporary could not be opened, all but the last when
      the rename failed. */
  function StepReached(canOpen: bool, moved: bool): (step: nat)
    ensures step < 4 && (step == 3 <==> canOpen && moved)
  {
    if !canOpen then 0 else if moved then 3 else 2
  }

  ghost predicate AllWellFormed(files: Files) {
    forall name :: name in files && files[name].Regular? ==> WellFormed(files[name].doc)
  }

  lemma ReplaceKeepsWellFormed(files: Files, id: string, doc: Json, k: nat)
    requires AllWellFormed(files) && WellFormed(doc) && k < 4
    ensures AllWellFormed(ReplaceSteps(files, id, doc)[k])
  {
  }

  lemma EncodeWellFormed(profile: Profile)
    requires Ordered(profile.settings)
    ensures WellFormed(Encode(profile))
  {
    EncodedFields(profile);
  }

  /** Whatever step a crash falls between, every file but the replaced one is as before, and that one
      is entirely old or entirely new. */
  lemma ReplaceIsAtomic(files: Files, id: string, doc: Json, k: nat, other: string)
    requires k < 4
    ensures var now := ReplaceSteps(files, id, doc)[k];
            if k == 3 && other == id then FileOf(other) in now && now[FileOf(other)] == Regular(doc)
            else (FileOf(other) in now <==> FileOf(other) in files)
                 && (FileOf(other) in files ==> now[FileOf(other)] == files[FileOf(other)])
  {
    NamesApart(other, id);
  }

  /** The names on disk; and a finished replacement leaves no temporary behind. */
  lemma ReplaceLeavesNoTemporary(files: Files, id: string, doc: Json)
    ensures var steps := ReplaceSteps(files, id, doc);
            && id + ".json.tmp" in steps[1] && id + ".json.tmp" in steps[2]
            && id + ".json.tmp" !in steps[3] && id + ".json" in steps[3]
            && forall name :: name != id + ".json" && name != id + ".json.tmp" ==>
                 forall k :: 0 <= k < 4 ==> (name in steps[k] <==> name in files) && (name in files ==> steps[k][name] == files[name])
  {
    NamesApart(id, id);
  }

  /** A saved profile reads back as itself, no other profile changes, at no step is anything half
      written visible, and the active id survives unless the profile's own file is `active.json`. */
  lemma SaveIsAtomic(files: Files, profile: Profile, k: nat, other: string)
    requires k < 4
    ensures var now := ReplaceSteps(files, profile.id, Encode(profile))[k];
            && ReadProfile(now, other) == (if k == 3 && other == profile.id then Parsed(profile) else ReadProfile(files, other))
            && (ActiveOf(now) == ActiveOf(files) <==> k < 3 || profile.id != "active" || ActiveOf(files) == "")
  {
    ReplaceIsAtomic(files, profile.id, Encode(profile), k, other);
    ReplaceIsAtomic(files, profile.id, Encode(profile), k, "active");
    DecodeEncode(profile);
    NoActiveField(profile);
  }

  lemma NoActiveField(profile: Profile)
    ensures Lookup<Json>(Encode(profile).fields, "active") == None
  {
    EncodedFields(profile);
    var fields := Encode(profile).fields;
    assert |"active"| == 6 && |"description"| == 11 && |"id"| == 2 && |"name"| == 4 && |"settings"| == 8;
    assert forall i :: 0 <= i < 4 ==> fields[i].key != "active";
  }

  /** The active id is what the field of that name says, and empty when nothing says it. */
  lemma ActiveReads(files: Files, id: string)
    requires AllWellFormed(files) && id != ""
    ensures ActiveOf(files) == id
            <==> exists fields :: FileOf("active") in files && files[FileOf("active")] == Regular(Obj(fields))
                                  && Entry("active", Str(id)) in fields
  {
    if FileOf("active") in files && files[FileOf("active")].Regular? && files[FileOf("active")].doc.Obj? {
      var fields := files[FileOf("active")].doc.fields;
      assert WellFormed(files[FileOf("active")].doc);
      LookupIff(fields, "active", Str(id));
    }
  }

  function ActiveDoc(id: string): Json { Obj([Entry("active", Str(id))]) }

  /** Recording the active profile touches no profile; `active` itself never names one afterwards. */
  lemma SetActiveIsAtomic(files: Files, id: string, k: nat, other: string)
    requires k < 4
    ensures var now := ReplaceSteps(files, "active", ActiveDoc(id))[k];
            && ActiveOf(now) == (if k == 3 then id else ActiveOf(files))
            && ReadProfile(now, other) == (if k == 3 && other == "active" then Rejected else ReadProfile(files, other))
  {
    ReplaceIsAtomic(files, "active", ActiveDoc(id), k, other);
    ReplaceIsAtomic(files, "active", ActiveDoc(id), k, "active");
    assert |"active"| == 6 && |"id"| == 2;
  }

  /** Does `List` look at a directory entry of this name? */
  predicate IsProfileName(name: string) {
    |name| > 5 && name[|name| - 5..] == ".json" && name != FileOf("active")
  }

  lemma ProfileNames(name: string)
    ensures IsProfileName(name) <==> exists id :: id != "" && id != "active" && name == FileOf(id)
  {
    if IsProfileName(name) {
      var id := name[..|name| - 5];
      assert name == FileOf(id);
      NamesApart(id, "active");
    }
    forall id | id != "" && id != "active" && name == FileOf(id) ensures IsProfileName(name) {
      assert name[|name| - 5..] == ".json";
      NamesApart(id, "active");
    }
  }

  /** What reading the listed entries yields, in directory order; None when one of them throws. */
  function ReadAll(files: Files, order: seq<string>): Option<seq<Profile>> {
    if order == [] then Some([])
    else
      var n := |order| - 1;
      match ReadAll(files, order[..n])
      case None => None
      case Some(before) =>
        if !IsProfileName(order[n]) || order[n] !in files then Some(before)
        else match Decode(files[order[n]])
          case Parsed(profile) => Some(before + [profile])
          case Rejected => Some(before)
          case Raised => None
  }

  // ---------------------------------------------------------------- sorting

  /** `std::sort` by id. */
  function InsertById(profiles: seq<Profile>, p: Profile): (r: seq<Profile>)
    ensures multiset(r) == multiset(profiles) + multiset{p}
  {
    if profiles == [] || Less(p.id, profiles[0].id) then [p] + profiles
    else
      assert profiles == [profiles[0]] + profiles[1..];
      [profiles[0]] + InsertById(profiles[1..], p)
  }

  function SortById(profiles: seq<Profile>): (r: seq<Profile>)
    ensures multiset(r) == multiset(profiles)
  {
    if profiles == [] then []
    else
      var n := |profiles| - 1;
      assert profiles == profiles[..n] + [profiles[n]];
      InsertById(SortById(profiles[..n]), profiles[n])
  }

  predicate SortedById(profiles: seq<Profile>) {
    forall i, j :: 0 <= i < j < |profiles| ==> !Less(profiles[j].id, profiles[i].id)
  }

  lemma {:induction false} InsertSorted(profiles: seq<Profile>, p: Profile)
    requires SortedById(profiles)
    ensures SortedById(InsertById(profiles, p))
  {
    var r := InsertById(profiles, p);
    if profiles == [] || Less(p.id, profiles[0].id) {
      forall j | 0 < j < |r| ensures !Less(r[j].id, p.id) {
        if Less(r[j].id, p.id) { LessTransitive(r[j].id, p.id, profiles[0].id); }
        LessIrreflexive(profiles[0].id);
      }
    } else {
      var tail := InsertById(profiles[1..], p);
      InsertSorted(profiles[1..], p);
      forall j | 0 < j < |r| ensures !Less(r[j].id, r[0].id) {
        assert r[j] == tail[j - 1] && tail[j - 1] in multiset(tail);
        if r[j] != p { assert r[j] in multiset(profiles[1..]) && r[j] in profiles[1..]; }
      }
    }
  }

  lemma {:induction false} SortSorts(profiles: seq<Profile>)
    ensures SortedById(SortById(profiles))
  {
    if profiles != [] {
      var n := |profiles| - 1;
      SortSorts(profiles[..n]);
      InsertSorted(SortById(profiles[..n]), profiles[n]);
    }
  }

  // ---------------------------------------------------------------- the class

  class ProfileStore {
    var files: Files

    constructor (files: Files)
      ensures this.files == files
    {
      this.files := files;
    }

    method Get(id: string) returns (read: Read)
      requires AllWellFormed(files)
      ensures read == ReadProfile(files, id)
    {
      if FileOf(id) !in files {
        return Rejected;
      }
      read := ParseProfileFile(files[FileOf(id)]);
    }

    /** `canOpen` and `moved`: did opening the temporary and the rename succeed? */
    method Replace(id: string, doc: Json, canOpen: bool, moved: bool) returns (ok: bool)
      modifies this
      ensures ok <==> canOpen && moved
      ensures files == ReplaceSteps(old(files), id, doc)[StepReached(canOpen, moved)]
    {
      if !canOpen {
        return false;
      }
      files := Truncated(files, id);
      files := Written(files, id, doc);
      if !moved {
        return false;
      }
      files := Renamed(files, id);
      return true;
    }

    method Save(profile: Profile, canOpen: bool, moved: bool) returns (ok: bool)
      modifies this
      ensures ok <==> canOpen && moved
      ensures forall id :: ReadProfile(files, id)
                           == if ok && id == profile.id then Parsed(profile) else ReadProfile(old(files), id)
      ensures !ok || profile.id != "active" ==> ActiveOf(files) == ActiveOf(old(files))
      ensures AllWellFormed(old(files)) && Ordered(profile.settings) ==> AllWellFormed(files)
    {
      ghost var was := files;
      ok := Replace(profile.id, Encode(profile), canOpen, moved);
      ghost var k := StepReached(canOpen, moved);
      SaveIsAtomic(was, profile, k, "");
      if AllWellFormed(was) && Ordered(profile.settings) {
        EncodeWellFormed(profile);
        ReplaceKeepsWellFormed(was, profile.id, Encode(profile), k);
      }
      forall id ensures ReadProfile(files, id) == if ok && id == profile.id then Parsed(profile) else ReadProfile(was, id) {
        SaveIsAtomic(was, profile, k, id);
      }
    }

    method SetActiveId(id: string, canOpen: bool, moved: bool)
      modifies this
      ensures ActiveOf(files) == if canOpen && moved then id else ActiveOf(old(files))
      ensures forall other :: other != "active" ==> ReadProfile(files, other) == ReadProfile(old(files), other)
      ensures files == ReplaceSteps(old(files), "active", ActiveDoc(id))[StepReached(canOpen, moved)]
    {
      ghost var was := files;
      var ok := Replace("active", ActiveDoc(id), canOpen, moved);
      ghost var k := StepReached(canOpen, moved);
      SetActiveIsAtomic(was, id, k, "active");
      forall other | other != "active" ensures ReadProfile(files, other) == ReadProfile(was, other) {
        SetActiveIsAtomic(was, id, k, other);
      }
    }

    method ActiveId() returns (id: string)
      ensures id == ActiveOf(files)
    {
      id := ActiveOf(files);
    }

    /** `order` is the order in which the directory iterator yields its entries. */
    method List(order: seq<string>) returns (profiles: Option<seq<Profile>>)
      requires AllWellFormed(files)
      ensures profiles.None? <==> ReadAll(files, order).None?
      ensures profiles.Some? ==>
                && SortedById(profiles.value)
                && multiset(profiles.value) == multiset(ReadAll(files, order).value)
    {
      var out: seq<Profile> := [];
      for i := 0 to |order|
        invariant ReadAll(files, order[..i]) == Some(out)
      {
        assert order[..i + 1][..i] == order[..i];
        ReadAllPrefix(files, order, i + 1);
        if !IsProfileName(order[i]) || order[i] !in files {
          continue;
        }
        var read := ParseProfileFile(files[order[i]]);
        if read.Raised? {
          return None;
        }
        if read.Parsed? {
          out := out + [read.profile];
        }
      }
      assert order[..|order|] == order;
      SortSorts(out);
      return Some(SortById(out));
    }
  }

  lemma {:induction false} ReadAllPrefix(files: Files, order: seq<string>, n: nat)
    requires n <= |order|
    ensures ReadAll(files, order[..n]).None? ==> ReadAll(files, order).None?
  {
    if n == |order| {
      assert order[..n] == order;
    } else {
      ReadAllPrefix(files, order[..|order| - 1], n);
      assert order[..|order| - 1][..n] == order[..n];
    }
  }

  // ---------------------------------------------------------------- the store as a map

  /** Every profile file is named after the profile in it, and none makes the reader throw. */
  ghost predicate Faithful(files: Files) {
    forall id :: id != "active" ==>
      match ReadProfile(files, id)
      case Parsed(p) => p.id == id
      case Rejected => true
      case Raised => false
  }

  lemma SaveKeepsFaithful(files: Files, profile: Profile)
    requires Faithful(files)
    ensures Faithful(ReplaceSteps(files, profile.id, Encode(profile))[3])
  {
    var now := ReplaceSteps(files, profile.id, Encode(profile))[3];
    forall id | id != "active"
      ensures ReadProfile(now, id) == if id == profile.id then Parsed(profile) else ReadProfile(files, id)
    {
      SaveIsAtomic(files, profile, 3, id);
    }
  }

  predicate AllDistinct(names: seq<string>) {
    forall i, j :: 0 <= i < j < |names| ==> names[i] != names[j]
  }

  /** Reading a faithful directory in any order yields each of its profiles exactly once. */
  lemma {:induction false} ReadAllFaithful(files: Files, order: seq<string>)
    requires Faithful(files) && AllDistinct(order)
    ensures ReadAll(files, order).Some?
    ensures var all := ReadAll(files, order).value;
            && (forall i, j :: 0 <= i < j < |all| ==> all[i].id != all[j].id)
            && forall p :: p in all <==>
                 && p.id != "" && p.id != "active"
                 && FileOf(p.id) in order && ReadProfile(files, p.id) == Parsed(p)
  {
    if order != [] {
      var n := |order| - 1;
      var name := order[n];
      ReadAllFaithful(files, order[..n]);
      var before := ReadAll(files, order[..n]).value;
      ProfileNames(name);
      if IsProfileName(name) && name in files {
        var id :| id != "" && id != "active" && name == FileOf(id);
        assert ReadProfile(files, id) == Decode(files[name]);
      }
      forall p: Profile ensures FileOf(p.id) in order <==> FileOf(p.id) in order[..n] || FileOf(p.id) == name {
        assert order == order[..n] + [name];
      }
      forall p: Profile | FileOf(p.id) == name && p.id != "" && p.id != "active" && ReadProfile(files, p.id).Parsed?
        ensures IsProfileName(name) && name in files
      {
      }
      forall a: string, b: string | FileOf(a) == FileOf(b) ensures a == b { NamesApart(a, b); }
      assert name !in order[..n];
    }
  }

  /** `List` is the map's values, strictly ascending by id: every profile `Get` can find, once each. */
  lemma ListIsTheMap(files: Files, order: seq<string>, listed: seq<Profile>)
    requires Faithful(files) && AllDistinct(order) && (forall name :: name in order <==> name in files)
    requires ReadAll(files, order).Some? && multiset(listed) == multiset(ReadAll(files, order).value)
    requires SortedById(listed)
    ensures forall i, j :: 0 <= i < j < |listed| ==> Less(listed[i].id, listed[j].id)
    ensures forall p :: p in listed <==> p.id != "" && p.id != "active" && ReadProfile(files, p.id) == Parsed(p)
  {
    ReadAllFaithful(files, order);
    var all := ReadAll(files, order).value;
    assert forall p :: p in listed <==> p in multiset(listed);
    assert forall p :: p in all <==> p in multiset(all);
    forall i, j | 0 <= i < j < |listed|
      ensures Less(listed[i].id, listed[j].id)
    {
      LessTotal(listed[i].id, listed[j].id);
      if listed[i].id == listed[j].id {
        assert listed[i] in listed && listed[j] in listed;
        assert listed[i] == listed[j];
        OnceEach(all, listed[i]);
        TwiceInList(listed, i, j);
      }
    }
  }

  lemma {:induction false} OnceEach(all: seq<Profile>, p: Profile)
    requires forall i, j :: 0 <= i < j < |all| ==> all[i].id != all[j].id
    ensures multiset(all)[p] <= 1
  {
    if all != [] {
      var n := |all| - 1;
      OnceEach(all[..n], p);
      assert all == all[..n] + [all[n]];
      assert all[n] !in all[..n];
    }
  }

  lemma TwiceInList(listed: seq<Profile>, i: nat, j: nat)
    requires i < j < |listed| && listed[i] == listed[j]
    ensures multiset(listed)[listed[i]] >= 2
  {
    assert listed == listed[..j] + [listed[j]] + listed[j + 1..];
    assert listed[i] in listed[..j];
  }
}
