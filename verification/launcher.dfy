/** The launcher (launcher/main.go): the `profiles.txt` format (one
    profile per line, `key=value` fields separated by `;`), and the profile
    list behind the launcher's form with its buttons. Reading and writing
    the file and drawing the form are I/O; the file's text is a value. */
module Launcher {
  import opened Wrappers
  import opened GoInt
  import opened GoStrings

  datatype Profile = Profile(name: string, world: string, host: string, port: int, normal: bool)

  /** Go's zero profile. */
  const EmptyProfile: Profile := Profile("", "", "", 0, false)

  // ---------------------------------------------------------------------
  // The profile file
  // ---------------------------------------------------------------------

  predicate KnownKey(key: string) {
    key == "world" || key == "port" || key == "host" || key == "name" || key == "normal"
  }

  /** One `key=value` field of a line. Unknown keys are ignored; a known
      key without `=` indexes past the split (a panic), and a port or
      normal value that is not an integer panics. Only the text between the
      first and second `=` is the value. */
  function ApplyField(pr: Profile, h: string): (r: Outcome<Profile>)
    ensures !KnownKey(Split(h, '=')[0]) ==> r == Done(pr)
    ensures KnownKey(Split(h, '=')[0]) && |Split(h, '=')| < 2 ==> r.Panic?
    ensures IsInt64(pr.port) && r.Done? ==> IsInt64(r.value.port)
  {
    var g := Split(h, '=');
    if !KnownKey(g[0]) then Done(pr)
    else if |g| < 2 then Panic("index out of range")
    else if g[0] == "world" then Done(pr.(world := g[1]))
    else if g[0] == "host" then Done(pr.(host := g[1]))
    else if g[0] == "name" then Done(pr.(name := g[1]))
    else
      match Atoi(g[1])
      case None => Panic("strconv.Atoi: invalid syntax")
      case Some(n) =>
        if g[0] == "port" then Done(pr.(port := n)) else Done(pr.(normal := n == 1))
  }

  /** The fields in order; a line with no known key leaves the profile
      alone, and a port read from the line is a 64-bit int. */
  function ApplyFields(pr: Profile, fields: seq<string>): (r: Outcome<Profile>)
    ensures (forall i :: 0 <= i < |fields| ==> !KnownKey(Split(fields[i], '=')[0])) ==> r == Done(pr)
    ensures IsInt64(pr.port) && r.Done? ==> IsInt64(r.value.port)
    decreases |fields|
  {
    if fields == [] then Done(pr)
    else
      var pr' :- ApplyField(pr, fields[0]);
      ApplyFields(pr', fields[1..])
  }

  /** One line's profile: the fields in order, starting from the zero
      profile. A line without a known key is the zero profile, and the
      port is always a 64-bit int. */
  function ParseProfile(line: string): (r: Outcome<Profile>)
    ensures (forall i :: 0 <= i < |Split(line, ';')| ==> !KnownKey(Split(Split(line, ';')[i], '=')[0])) ==>
              r == Done(EmptyProfile)
    ensures r.Done? ==> IsInt64(r.value.port)
  {
    ApplyFields(EmptyProfile, Split(line, ';'))
  }

  function ParseLines(lines: seq<string>): (r: Outcome<seq<Profile>>)
    ensures r.Done? ==> |r.value| <= |lines| && forall i :: 0 <= i < |r.value| ==> IsInt64(r.value[i].port)
    decreases |lines|
  {
    if lines == [] then Done([])
    else if lines[0] == "" then ParseLines(lines[1..])
    else
      var p :- ParseProfile(lines[0]);
      var rest :- ParseLines(lines[1..]);
      Done([p] + rest)
  }

  /** getprofiles: one profile per non-empty line of the file, so never
      more profiles than lines, each with a 64-bit port. */
  function GetProfiles(file: string): (r: Outcome<seq<Profile>>)
    ensures r.Done? ==> |r.value| <= |Split(file, '\n')| && forall i :: 0 <= i < |r.value| ==> IsInt64(r.value[i].port)
  {
    ParseLines(Split(file, '\n'))
  }

  /** An empty (or just created) file has no profiles. */
  lemma EmptyFileHasNoProfiles()
    ensures GetProfiles("") == Done([])
  {
    SplitWithout("", '\n');
    assert ParseLines([""]) == ParseLines([]);
  }

  function NormalText(b: bool): string {
    if b then "1" else "0"
  }

  /** A profile's line: name, world, host, normal (0 or 1) and port. */
  function ProfileLine(p: Profile): string {
    Join(Fields(p), ';')
  }

  /** A profile's fields, in the order saveProfileFile writes them. */
  function Fields(p: Profile): seq<string> {
    [FieldText("name", p.name), FieldText("world", p.world), FieldText("host", p.host),
     FieldText("normal", NormalText(p.normal)), FieldText("port", Itoa(p.port))]
  }

  /** saveProfileFile's text: the profiles' lines joined by newlines. No
      profile is written, the file is empty; otherwise, when the profiles
      are storable, its lines are exactly the profiles' lines, one each, in
      order. */
  function ProfileFile(ps: seq<Profile>): (r: string)
    ensures ps == [] ==> r == ""
    ensures ps != [] && (forall i :: 0 <= i < |ps| ==> Storable(ps[i])) ==> Split(r, '\n') == ProfileLines(ps)
  {
    var text := Join(ProfileLines(ps), '\n');
    assert ps != [] && (forall i :: 0 <= i < |ps| ==> Storable(ps[i])) ==> Split(text, '\n') == ProfileLines(ps) by {
      if ps != [] && (forall i :: 0 <= i < |ps| ==> Storable(ps[i])) {
        LinesAvoidNewline(ps);
        SplitJoin(ProfileLines(ps), '\n');
      }
    }
    text
  }

  /** One line per profile, in order. */
  function ProfileLines(ps: seq<Profile>): (r: seq<string>)
    ensures |r| == |ps| && forall i :: 0 <= i < |ps| ==> r[i] == ProfileLine(ps[i])
    decreases |ps|
  {
    if ps == [] then [] else [ProfileLine(ps[0])] + ProfileLines(ps[1..])
  }

  /** A text field the format can carry. */
  predicate Plain(s: string) {
    ';' !in s && '=' !in s && '\n' !in s
  }

  predicate Storable(p: Profile) {
    Plain(p.name) && Plain(p.world) && Plain(p.host) && IsInt64(p.port)
  }

  /** A text field read from `key=value`. */
  lemma ApplyTextField(pr: Profile, key: string, v: string)
    requires (key == "world" || key == "host" || key == "name") && '=' !in v
    ensures ApplyField(pr, FieldText(key, v)) ==
              Done(if key == "world" then pr.(world := v) else if key == "host" then pr.(host := v) else pr.(name := v))
  {
    FieldSplit(key, v);
  }

  /** A number field read from `key=value`. */
  lemma ApplyNumberField(pr: Profile, key: string, n: int)
    requires (key == "port" || key == "normal") && IsInt64(n)
    ensures ApplyField(pr, FieldText(key, Itoa(n))) ==
              Done(if key == "port" then pr.(port := n) else pr.(normal := n == 1))
  {
    FieldSplit(key, Itoa(n));
    AtoiItoa(n);
  }

  /** The five fields, applied in order, rebuild the profile. */
  lemma ApplyAllFields(p: Profile)
    requires Storable(p)
    ensures ApplyFields(EmptyProfile, Fields(p)) == Done(p)
  {
    var f := Fields(p);
    var p1 := EmptyProfile.(name := p.name);
    var p2 := p1.(world := p.world);
    var p3 := p2.(host := p.host);
    var p4 := p3.(normal := p.normal);
    assert ApplyFields(p4, f[4..]) == Done(p) by {
      ApplyNumberField(p4, "port", p.port);
      assert f[4..][0] == f[4] && f[4..][1..] == [];
    }
    assert ApplyFields(p3, f[3..]) == ApplyFields(p4, f[4..]) by {
      assert NormalText(p.normal) == Itoa(if p.normal then 1 else 0);
      ApplyNumberField(p3, "normal", if p.normal then 1 else 0);
      assert f[3..][0] == f[3] && f[3..][1..] == f[4..];
    }
    assert ApplyFields(p2, f[2..]) == ApplyFields(p3, f[3..]) by {
      ApplyTextField(p2, "host", p.host);
      assert f[2..][0] == f[2] && f[2..][1..] == f[3..];
    }
    assert ApplyFields(p1, f[1..]) == ApplyFields(p2, f[2..]) by {
      ApplyTextField(p1, "world", p.world);
      assert f[1..][0] == f[1] && f[1..][1..] == f[2..];
    }
    assert ApplyFields(EmptyProfile, f) == ApplyFields(p1, f[1..]) by {
      ApplyTextField(EmptyProfile, "name", p.name);
    }
  }

  /** Reading a profile's line gives the profile back. */
  lemma ProfileLineRoundTrip(p: Profile)
    requires Storable(p)
    ensures ParseProfile(ProfileLine(p)) == Done(p)
  {
    var fields := Fields(p);
    assert ProfileLine(p) == Join(fields, ';');
    assert forall i :: 0 <= i < |fields| ==> ';' !in fields[i];
    SplitJoin(fields, ';');
    ApplyAllFields(p);
  }

  lemma ParseLinesRoundTrip(ps: seq<Profile>)
    requires forall i :: 0 <= i < |ps| ==> Storable(ps[i])
    ensures ParseLines(ProfileLines(ps)) == Done(ps)
  {
    var lines := ProfileLines(ps);
    forall i | 0 <= i < |lines| ensures lines[i] != "" && ParseProfile(lines[i]) == Done(ps[i]) {
      LineRoundTrip(ps[i]);
    }
    ParseLinesOf(lines, ps);
  }

  /** A profile's line is not empty and reads back as the profile. */
  lemma LineRoundTrip(p: Profile)
    requires Storable(p)
    ensures ProfileLine(p) != "" && ParseProfile(ProfileLine(p)) == Done(p)
  {
    assert Fields(p)[0] != "";
    ProfileLineRoundTrip(p);
  }

  /** Lines that are all non-empty and each parse are read as the list of
      their profiles. */
  lemma {:induction false} ParseLinesOf(lines: seq<string>, ps: seq<Profile>)
    requires |lines| == |ps|
    requires forall i :: 0 <= i < |lines| ==> lines[i] != "" && ParseProfile(lines[i]) == Done(ps[i])
    ensures ParseLines(lines) == Done(ps)
    decreases |lines|
  {
    if lines != [] {
      ParseLinesOf(lines[1..], ps[1..]);
      ParseLinesCons(lines);
      assert [ps[0]] + ps[1..] == ps;
    }
  }

  /** A non-empty first line that parses is the first profile. */
  lemma ParseLinesCons(lines: seq<string>)
    requires lines != [] && lines[0] != ""
    requires ParseProfile(lines[0]).Done? && ParseLines(lines[1..]).Done?
    ensures ParseLines(lines) == Done([ParseProfile(lines[0]).value] + ParseLines(lines[1..]).value)
  {
  }

  /** No profile line holds a newline. */
  lemma LinesAvoidNewline(ps: seq<Profile>)
    requires forall i :: 0 <= i < |ps| ==> Storable(ps[i])
    ensures forall i :: 0 <= i < |ps| ==> '\n' !in ProfileLines(ps)[i]
  {
    forall i | 0 <= i < |ps| ensures '\n' !in ProfileLines(ps)[i] {
      LineAvoidsNewline(ps[i]);
    }
  }

  lemma LineAvoidsNewline(p: Profile)
    requires Storable(p)
    ensures '\n' !in ProfileLine(p)
  {
    var f := Fields(p);
    assert forall i :: 0 <= i < |f| ==> '\n' !in f[i];
    JoinAvoids(f, ';', '\n');
  }

  /** Writing the profiles and reading the file back gives the same
      profiles, provided no text field contains `;`, `=` or a newline and
      every port is a 64-bit int. */
  lemma ProfileFileRoundTrip(ps: seq<Profile>)
    requires forall i :: 0 <= i < |ps| ==> Storable(ps[i])
    ensures GetProfiles(ProfileFile(ps)) == Done(ps)
  {
    if ps == [] {
      assert ProfileFile(ps) == "";
    } else {
      LinesAvoidNewline(ps);
      SplitJoin(ProfileLines(ps), '\n');
    }
    ParseLinesRoundTrip(ps);
  }

  /** A known key without a value panics (Go indexes past the split). */
  lemma MissingValuePanics()
    ensures GetProfiles("name").Panic?
  {
    SplitWithout("name", '\n');
    SplitWithout("name", ';');
    SplitWithout("name", '=');
  }

  /** A port or normal value that is not a 64-bit integer panics. */
  lemma BadNumberPanics(key: string, v: string)
    requires (key == "port" || key == "normal") && Plain(v) && Atoi(v).None?
    ensures GetProfiles(FieldText(key, v)).Panic?
  {
    var f := FieldText(key, v);
    assert f == key + ['='] + v;
    assert ';' !in f && '\n' !in f;
    SplitWithout(f, '\n');
    SplitWithout(f, ';');
    FieldSplit(key, v);
    assert ApplyField(EmptyProfile, f).Panic?;
    assert ApplyFields(EmptyProfile, [f]).Panic?;
  }

  /** Unknown keys are ignored. */
  lemma UnknownKeyIgnored(pr: Profile, key: string, v: string)
    requires !KnownKey(key) && '=' !in key && '=' !in v
    ensures ApplyField(pr, FieldText(key, v)) == Done(pr)
  {
    FieldSplit(key, v);
  }

  // ---------------------------------------------------------------------
  // The form and its buttons
  // ---------------------------------------------------------------------

  /** The form's entries: name, world, port, the default button's label
      and host. */
  datatype Form = Form(name: string, world: string, port: string, default: string, host: string)

  datatype Ui = Ui(profiles: seq<Profile>, current: int, form: Form, message: string)

  predicate Valid(u: Ui) {
    0 <= u.current < |u.profiles|
  }

  /** At most one profile is the default. */
  predicate AtMostOneDefault(ps: seq<Profile>) {
    forall i, j :: 0 <= i < |ps| && 0 <= j < |ps| && ps[i].normal && ps[j].normal ==> i == j
  }

  function BoolText(b: bool): string {
    if b then "true" else "false"
  }

  /** loadProfile: the form shows the current profile. */
  function LoadProfile(u: Ui): (r: Ui)
    requires Valid(u)
    ensures r.profiles == u.profiles && r.current == u.current && r.message == u.message
    ensures r.form.name == u.profiles[u.current].name && r.form.port == Itoa(u.profiles[u.current].port)
  {
    var p := u.profiles[u.current];
    u.(form := Form(p.name, p.world, Itoa(p.port), "default = " + BoolText(p.normal), p.host))
  }

  /** saveProfile: the form's texts go into the current profile; a port
      text that is not an integer stores port 0. */
  function SaveProfile(u: Ui): (r: Ui)
    requires Valid(u)
    ensures Valid(r) && r.current == u.current && r.form == u.form && |r.profiles| == |u.profiles|
    ensures forall i :: 0 <= i < |u.profiles| && i != u.current ==> r.profiles[i] == u.profiles[i]
    ensures var p := r.profiles[u.current];
            && p.name == u.form.name && p.world == u.form.world && p.host == u.form.host
            && p.normal == u.profiles[u.current].normal
            && p.port == (if Atoi(u.form.port).Some? then Atoi(u.form.port).value else 0)
  {
    var p := u.profiles[u.current];
    var port := match Atoi(u.form.port) case Some(n) => n case None => 0;
    u.(profiles := u.profiles[u.current := p.(name := u.form.name, world := u.form.world, port := port, host := u.form.host)])
  }

  /** Saving what was just loaded changes nothing. */
  lemma SaveAfterLoad(u: Ui)
    requires Valid(u) && IsInt64(u.profiles[u.current].port)
    ensures SaveProfile(LoadProfile(u)).profiles == u.profiles
  {
    AtoiItoa(u.profiles[u.current].port);
  }

  /** setn: flips the current profile's default flag; becoming the
      default clears every other profile's flag. */
  function SetN(u: Ui): (r: Ui)
    requires Valid(u)
    ensures Valid(r) && r.current == u.current && |r.profiles| == |u.profiles|
    ensures r.profiles[u.current] == u.profiles[u.current].(normal := !u.profiles[u.current].normal)
    ensures forall i :: 0 <= i < |u.profiles| && i != u.current ==>
              r.profiles[i] == if r.profiles[u.current].normal then u.profiles[i].(normal := false) else u.profiles[i]
  {
    var p := u.profiles[u.current];
    var flipped := u.profiles[u.current := p.(normal := !p.normal)];
    var ps :=
      if !p.normal then seq(|flipped|, i requires 0 <= i < |flipped| => if i == u.current then flipped[i] else flipped[i].(normal := false))
      else flipped;
    LoadProfile(u.(profiles := ps))
  }

  /** setn keeps at most one default, and when it makes the current
      profile the default, that profile is the only one. */
  lemma SetNKeepsOneDefault(u: Ui)
    requires Valid(u)
    ensures AtMostOneDefault(u.profiles) ==> AtMostOneDefault(SetN(u).profiles)
    ensures SetN(u).profiles[u.current].normal ==>
              forall i :: 0 <= i < |u.profiles| && SetN(u).profiles[i].normal ==> i == u.current
  {
  }

  /** newp: an empty profile is added and selected. */
  function NewP(u: Ui): (r: Ui)
    ensures Valid(r) && r.profiles == u.profiles + [EmptyProfile] && r.current == |u.profiles|
    ensures r.message == "Successfully created profile."
  {
    var v := u.(profiles := u.profiles + [EmptyProfile], current := |u.profiles|, message := "Successfully created profile.");
    LoadProfile(v)
  }

  /** removep: refuses to delete the only profile; otherwise deletes the
      current one and selects the old index modulo the new count. */
  function RemoveP(u: Ui): (r: Ui)
    requires Valid(u)
    ensures Valid(r)
    ensures |u.profiles| <= 1 ==> r == u.(message := "Cannot delete the only profile.")
    ensures |u.profiles| > 1 ==>
              && r.profiles == u.profiles[..u.current] + u.profiles[u.current + 1..]
              && r.current == u.current % (|u.profiles| - 1)
              && r.message == "Successfully deleted profile."
  {
    if |u.profiles| > 1 then
      var ps := u.profiles[..u.current] + u.profiles[u.current + 1..];
      LoadProfile(u.(profiles := ps, current := u.current % |ps|, message := "Successfully deleted profile."))
    else u.(message := "Cannot delete the only profile.")
  }

  /** pickp: the form is saved into the current profile, then the next
      profile (cyclically) is selected and shown. */
  function PickP(u: Ui): (r: Ui)
    requires Valid(u)
    ensures Valid(r) && r.current == (u.current + 1) % |u.profiles|
    ensures r.profiles == SaveProfile(u).profiles
  {
    var s := SaveProfile(u);
    LoadProfile(s.(current := (s.current + 1) % |s.profiles|))
  }

  /** Pressing "Switch profile" `k` times. */
  function PickN(u: Ui, k: nat): (r: Ui)
    requires Valid(u)
    ensures Valid(r) && |r.profiles| == |u.profiles|
    ensures r.current == Ahead(u.current, k, |u.profiles|)
    decreases k
  {
    if k == 0 then u else PickN(PickP(u), k - 1)
  }

  /** The index `k` steps on from `i` on a ring of `n`, one step at a
      time as pickp takes them. */
  function Ahead(i: int, k: nat, n: int): int
    requires n > 0
    decreases k
  {
    if k == 0 then i else Ahead((i + 1) % n, k - 1, n)
  }

  /** `k` presses move the selection `k` profiles on, cyclically, so
      pressing once per profile comes back to the starting one. */
  lemma PickPCycles(u: Ui, k: nat)
    requires Valid(u)
    ensures PickN(u, k).current == (u.current + k) % |u.profiles|
    ensures PickN(u, |u.profiles|).current == u.current
  {
    AheadCycles(u.current, k, |u.profiles|);
  }

  /** `k` steps round a ring of `n` land at `(i + k) mod n`, and a full
      turn comes back to the start. */
  lemma AheadCycles(i: int, k: nat, n: int)
    requires 0 <= i < n
    ensures Ahead(i, k, n) == (i + k) % n
    ensures Ahead(i, n, n) == i
  {
    AheadIsMod(i, k, n);
    AheadIsMod(i, n, n);
    ModShift(i, n, 1);
    ModSmall(i, n);
  }

  /** Stepping `k` times round a ring of `n` lands at `(i + k) mod n`. */
  lemma {:induction false} AheadIsMod(i: int, k: nat, n: int)
    requires 0 <= i < n
    ensures Ahead(i, k, n) == (i + k) % n
    decreases k
  {
    if k == 0 {
      ModSmall(i, n);
    } else {
      var j := (i + 1) % n;
      assert 0 <= j < n;
      AheadIsMod(j, k - 1, n);
      ModAddOne(i, j, Ahead(j, k - 1, n), k, n);
    }
  }

  /** Moving one step (to `b`) and then `k - 1` more (to `c`), modulo
      `n`, is moving `k`. */
  lemma ModAddOne(a: int, b: int, c: int, k: nat, n: int)
    requires 0 <= a < n && k >= 1
    requires b == (a + 1) % n && c == (b + (k - 1)) % n
    ensures c == (a + k) % n
  {
    if a + 1 == n {
      ModSmall(0, n);
      ModShift(0, n, 1);
      ModShift(k - 1, n, 1);
      assert (k - 1) + 1 * n == a + k;
    } else {
      ModSmall(a + 1, n);
    }
  }

  /** The startup choice of profile: the last default one, else the
      first, else none (-1). */
  function LastDefault(ps: seq<Profile>): (i: int)
    ensures -1 <= i < |ps|
    ensures i >= 0 ==> ps[i].normal && forall j :: i < j < |ps| ==> !ps[j].normal
    ensures i == -1 ==> forall j :: 0 <= j < |ps| ==> !ps[j].normal
    decreases |ps|
  {
    if ps == [] then -1
    else if ps[|ps| - 1].normal then |ps| - 1
    else LastDefault(ps[..|ps| - 1])
  }

  /** main's start: select the last default profile, else the first, else
      a new empty one; then show it in the form and save the form back. */
  function Startup(ps: seq<Profile>): (u: Ui)
    ensures Valid(u)
    ensures LastDefault(ps) >= 0 ==> u.current == LastDefault(ps)
    ensures LastDefault(ps) == -1 && ps != [] ==> u.current == 0
    ensures ps == [] ==> u.profiles == [EmptyProfile] && u.current == 0
  {
    var blank := Ui(ps, -1, Form("", "", "", "", ""), "");
    var i := LastDefault(ps);
    var chosen :=
      if i >= 0 then blank.(current := i)
      else if |ps| > 0 then blank.(current := 0)
      else NewP(blank);
    assert ps == [] ==> SaveProfile(LoadProfile(chosen)).profiles == chosen.profiles by {
      if ps == [] { SaveAfterLoad(chosen); }
    }
    SaveProfile(LoadProfile(chosen))
  }

  /** Startup keeps the profiles it read (ports that are 64-bit ints read
      back unchanged through the form). */
  lemma StartupKeepsProfiles(ps: seq<Profile>)
    requires ps != [] && forall i :: 0 <= i < |ps| ==> IsInt64(ps[i].port)
    ensures Startup(ps).profiles == ps
  {
    var i := LastDefault(ps);
    var c := if i >= 0 then i else 0;
    SaveAfterLoad(Ui(ps, c, Form("", "", "", "", ""), ""));
  }

  /** What the play button starts: a client, or a local server for the
      world and then a client. */
  datatype Launch =
    | ClientOnly(name: string, host: string, port: int)
    | ServerAndClient(world: string, seed: int, name: string, host: string, port: int)

  /** The seed a locally started server gets. */
  const LocalSeed: int := 123

  /** run: refuses an empty name; otherwise saves the form, writes the
      profile file, and launches. */
  function Run(u: Ui): (r: (Ui, Option<string>, Option<Launch>))
    requires Valid(u)
    ensures u.form.name == "" ==> r == (u.(message := "ERROR: Name needs to be something"), None, None)
    ensures u.form.name != "" ==>
              var s := SaveProfile(u);
              var p := s.profiles[u.current];
              && r.0 == s && r.1 == Some(ProfileFile(s.profiles))
              && r.2 == Some(if p.world == "" then ClientOnly(p.name, p.host, p.port)
                             else ServerAndClient(p.world, LocalSeed, p.name, p.host, p.port))
  {
    if u.form.name == "" then (u.(message := "ERROR: Name needs to be something"), None, None)
    else
      var s := SaveProfile(u);
      var p := s.profiles[s.current];
      var launch := if p.world == "" then ClientOnly(p.name, p.host, p.port)
                    else ServerAndClient(p.world, LocalSeed, p.name, p.host, p.port);
      (s, Some(ProfileFile(s.profiles)), Some(launch))
  }

  /** The file run writes reads back as the saved profiles. */
  lemma RunWritesReadableFile(u: Ui)
    requires Valid(u) && u.form.name != ""
    requires forall i :: 0 <= i < |u.profiles| ==> Storable(u.profiles[i])
    requires Plain(u.form.name) && Plain(u.form.world) && Plain(u.form.host)
    ensures GetProfiles(Run(u).1.value) == Done(Run(u).0.profiles)
  {
    var s := SaveProfile(u);
    assert forall i :: 0 <= i < |s.profiles| ==> Storable(s.profiles[i]);
    ProfileFileRoundTrip(s.profiles);
  }

  /** The server button always joins the fixed public server. */
  function ConnectToServer(u: Ui): (l: Launch)
    requires Valid(u)
    ensures l == ClientOnly(u.profiles[u.current].name, "friends123.tk", 1234)
  {
    ClientOnly(u.profiles[u.current].name, "friends123.tk", 1234)
  }
}
