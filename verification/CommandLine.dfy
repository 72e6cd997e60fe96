/** The option grammar of the command line and the loop that folds options into a draft. */
module CommandLine {
  import opened Optional
  import opened Temporal
  import opened Disk
  import opened Protocol

  const OPTION_WORDS := ["--clock", "--calendar", "--seconds", "--location", "--clear-location"]

  /** What the catalogues and the number parser accept. No value is an option word. */
  datatype Words = Words(
    knownClock: string -> bool, knownCalendar: string -> bool, number: string -> Option<real>)
  {
    predicate Sensible() {
      forall w <- OPTION_WORDS :: !knownClock(w) && !knownCalendar(w) && number(w).None?
    }

    function InRange(text: string, bound: real): Option<real> {
      var x := number(text);
      if x.Some? && -bound <= x.value <= bound then x else None
    }
  }

  /** The first option and the number of words it takes; `None` rejects the command. */
  function FirstOption(words: Words, args: seq<string>): (r: Option<(Edit, nat)>)
    requires args != []
    ensures r.Some? ==> 1 <= r.value.1 <= |args|
  {
    if args[0] == "--clock" && |args| > 1 then
      if words.knownClock(args[1]) then Some((SetClock(args[1]), 2)) else None
    else if args[0] == "--calendar" && |args| > 1 then
      if words.knownCalendar(args[1]) then Some((SetCalendar(args[1]), 2)) else None
    else if args[0] == "--seconds" && |args| > 1 then
      if args[1] == "on" then Some((SetSeconds(true), 2))
      else if args[1] == "off" then Some((SetSeconds(false), 2))
      else None
    else if args[0] == "--location" && |args| > 2 then
      var latitude := words.InRange(args[1], 90.0);
      var longitude := words.InRange(args[2], 180.0);
      if latitude.Some? && longitude.Some? then
        Some((SetPlace(latitude.value, longitude.value), 3))
      else None
    else if args[0] == "--clear-location" then Some((Unplace, 1))
    else None
  }

  /** The edits of an accepted command line, in order. */
  function Options(words: Words, args: seq<string>): Option<seq<Edit>> {
    if args == [] then Some([])
    else
      var first := FirstOption(words, args);
      if first.None? then None
      else
        var rest := Options(words, args[first.value.1..]);
        if rest.None? then None else Some([first.value.0] + rest.value)
  }

  /** Every location of an accepted command is on the globe. */
  lemma {:induction false} OptionsAreInRange(words: Words, args: seq<string>)
    requires Options(words, args).Some?
    ensures forall e <- Options(words, args).value | e.SetPlace? ::
      -90.0 <= e.latitude <= 90.0 && -180.0 <= e.longitude <= 180.0
  {
    if args != [] {
      OptionsAreInRange(words, args[FirstOption(words, args).value.1..]);
    }
  }

  predicate TouchesLocation(args: seq<string>) {
    exists i | 0 <= i < |args| :: args[i] == "--location" || args[i] == "--clear-location"
  }

  /** The locality lock is taken exactly for the commands that move the location. */
  lemma {:induction false} LockedWhenMoving(words: Words, args: seq<string>)
    requires words.Sensible() && Options(words, args).Some?
    ensures TouchesLocation(args) <==> !FieldOnly(Options(words, args).value)
  {
    if args != [] {
      var first := FirstOption(words, args).value;
      var rest := args[first.1..];
      LockedWhenMoving(words, rest);
      var es := Options(words, rest).value;
      assert FieldOnly([first.0] + es) <==> !MovesPlace(first.0) && FieldOnly(es) by {
        assert ([first.0] + es)[0] == first.0;
        assert forall i | 0 <= i < |es| :: ([first.0] + es)[i + 1] == es[i];
      }
      assert forall i | first.1 <= i < |args| :: args[i] == rest[i - first.1];
      FirstTouches(words, args);
    }
  }

  lemma FirstTouches(words: Words, args: seq<string>)
    requires words.Sensible() && args != [] && FirstOption(words, args).Some?
    ensures
      var first := FirstOption(words, args).value;
      MovesPlace(first.0) <==>
        exists i | 0 <= i < first.1 :: args[i] == "--location" || args[i] == "--clear-location"
  {
    assert OPTION_WORDS[3] in OPTION_WORDS && OPTION_WORDS[4] in OPTION_WORDS;
    if args[0] == "--location" || args[0] == "--clear-location" {
      assert 0 <= 0 < FirstOption(words, args).value.1;
    }
  }

  // ----- The grammar, without the reader

  /** How an edit is spelled on the command line. */
  predicate Spells(words: Words, ws: seq<string>, e: Edit) {
    match e
    case SetClock(c) => ws == ["--clock", c] && words.knownClock(c)
    case SetCalendar(c) => ws == ["--calendar", c] && words.knownCalendar(c)
    case SetSeconds(b) => ws == ["--seconds", if b then "on" else "off"]
    case SetPlace(lat, lon) =>
      && |ws| == 3 && ws[0] == "--location"
      && words.number(ws[1]) == Some(lat) && -90.0 <= lat <= 90.0
      && words.number(ws[2]) == Some(lon) && -180.0 <= lon <= 180.0
    case Unplace => ws == ["--clear-location"]
  }

  function Joined(pieces: seq<seq<string>>): seq<string> {
    if pieces == [] then [] else pieces[0] + Joined(pieces[1..])
  }

  /** The words are these pieces one after the other, each the spelling of its edit. */
  predicate SpelledBy(words: Words, args: seq<string>, pieces: seq<seq<string>>, es: seq<Edit>) {
    && |pieces| == |es| && Joined(pieces) == args
    && forall i | 0 <= i < |es| :: Spells(words, pieces[i], es[i])
  }

  ghost predicate Spelled(words: Words, args: seq<string>, es: seq<Edit>) {
    exists pieces :: SpelledBy(words, args, pieces, es)
  }

  ghost predicate Acceptable(words: Words, args: seq<string>) {
    exists es :: Spelled(words, args, es)
  }

  lemma FirstIsSpelled(words: Words, args: seq<string>)
    requires args != [] && FirstOption(words, args).Some?
    ensures
      var (e, taken) := FirstOption(words, args).value;
      Spells(words, args[..taken], e)
  {
  }

  lemma SpelledIsFirst(words: Words, piece: seq<string>, e: Edit, rest: seq<string>)
    requires Spells(words, piece, e)
    ensures piece != [] && FirstOption(words, piece + rest) == Some((e, |piece|))
  {
  }

  lemma OneMoreSpelled(words: Words, piece: seq<string>, rest: seq<string>, e: Edit,
                       pieces: seq<seq<string>>, es: seq<Edit>)
    requires Spells(words, piece, e) && SpelledBy(words, rest, pieces, es)
    ensures SpelledBy(words, piece + rest, [piece] + pieces, [e] + es)
  {
    assert ([piece] + pieces)[1..] == pieces;
  }

  lemma OptionFirst(words: Words, args: seq<string>, e: Edit, es: seq<Edit>)
    returns (piece: seq<string>, rest: seq<string>)
    requires Options(words, args) == Some([e] + es)
    ensures args == piece + rest && |rest| < |args|
    ensures Spells(words, piece, e) && Options(words, rest) == Some(es)
  {
    var (first, taken) := FirstOption(words, args).value;
    piece, rest := args[..taken], args[taken..];
    FirstIsSpelled(words, args);
    assert ([e] + es)[0] == e && ([e] + es)[1..] == es;
    assert ([first] + Options(words, rest).value)[1..] == Options(words, rest).value;
  }

  lemma {:induction false} OptionsSpell(words: Words, args: seq<string>, es: seq<Edit>)
    requires Options(words, args) == Some(es)
    ensures Spelled(words, args, es)
    decreases |es|
  {
    if es == [] {
      assert SpelledBy(words, args, [], []);
    } else {
      assert es == [es[0]] + es[1..];
      var piece, rest := OptionFirst(words, args, es[0], es[1..]);
      OptionsSpell(words, rest, es[1..]);
      var pieces :| SpelledBy(words, rest, pieces, es[1..]);
      OneMoreSpelled(words, piece, rest, es[0], pieces, es[1..]);
    }
  }

  lemma {:induction false} SpellingIsRead(
    words: Words, args: seq<string>, pieces: seq<seq<string>>, es: seq<Edit>)
    requires SpelledBy(words, args, pieces, es)
    ensures Options(words, args) == Some(es)
    decreases |pieces|
  {
    if pieces != [] {
      var rest := Joined(pieces[1..]);
      SpelledIsFirst(words, pieces[0], es[0], rest);
      assert args[|pieces[0]|..] == rest;
      assert SpelledBy(words, rest, pieces[1..], es[1..]);
      SpellingIsRead(words, rest, pieces[1..], es[1..]);
      assert es == [es[0]] + es[1..];
    }
  }

  /** The reader accepts exactly the concatenations of spelled options, and reads the edits
      that they spell. */
  lemma OptionsAreExact(words: Words, args: seq<string>)
    ensures Options(words, args).Some? <==> Acceptable(words, args)
    ensures forall es :: Options(words, args) == Some(es) <==> Spelled(words, args, es)
  {
    forall es ensures Options(words, args) == Some(es) <==> Spelled(words, args, es) {
      if Spelled(words, args, es) {
        var pieces :| SpelledBy(words, args, pieces, es);
        SpellingIsRead(words, args, pieces, es);
      }
      if Options(words, args) == Some(es) {
        OptionsSpell(words, args, es);
      }
    }
  }

  // ----- What an accepted command says, word by word

  /** The last occurrence of a word. */
  predicate LastAt(args: seq<string>, w: string, i: nat) {
    i < |args| && args[i] == w && forall j | i < j < |args| :: args[j] != w
  }

  predicate IsMove(w: string) {
    w == "--location" || w == "--clear-location"
  }

  predicate LastMoveAt(args: seq<string>, i: nat) {
    i < |args| && IsMove(args[i]) && forall j | i < j < |args| :: !IsMove(args[j])
  }

  ghost predicate TellsClock(args: seq<string>, base: Policy, p: Policy) {
    && ("--clock" !in args ==> p.clock == base.clock)
    && (forall i: nat | LastAt(args, "--clock", i) :: i + 1 < |args| && p.clock == args[i + 1])
  }

  ghost predicate TellsCalendar(args: seq<string>, base: Policy, p: Policy) {
    && ("--calendar" !in args ==> p.calendar == base.calendar)
    && (forall i: nat | LastAt(args, "--calendar", i) :: i + 1 < |args| && p.calendar == args[i + 1])
  }

  ghost predicate TellsSeconds(args: seq<string>, base: Policy, p: Policy) {
    && ("--seconds" !in args ==> p.seconds == base.seconds)
    && (forall i: nat | LastAt(args, "--seconds", i) ::
          i + 1 < |args| && p.seconds == (args[i + 1] == "on") && (args[i + 1] in ["on", "off"]))
  }

  ghost predicate TellsPlace(words: Words, args: seq<string>, base: Location, l: Location) {
    && ("--location" !in args ==> l.latitude == base.latitude && l.longitude == base.longitude)
    && (forall i: nat | LastAt(args, "--location", i) ::
          i + 2 < |args| && words.number(args[i + 1]) == Some(l.latitude)
          && words.number(args[i + 2]) == Some(l.longitude))
    && (!TouchesLocation(args) ==> l.configured == base.configured)
    && (forall i: nat | LastMoveAt(args, i) :: l.configured == (args[i] == "--location"))
  }

  /** The policy is the base but for what the last word of each option is followed by. */
  ghost predicate Tells(words: Words, args: seq<string>, base: Policy, p: Policy) {
    && TellsClock(args, base, p) && TellsCalendar(args, base, p) && TellsSeconds(args, base, p)
    && TellsPlace(words, args, base.place, p.place)
  }

  lemma LastSplits(piece: seq<string>, rest: seq<string>, w: string)
    ensures w in piece + rest <==> w in piece || w in rest
    ensures forall i: nat | LastAt(piece + rest, w, i) ::
      if w in rest then i >= |piece| && LastAt(rest, w, i - |piece|) else LastAt(piece, w, i)
  {
    var args := piece + rest;
    forall i: nat | LastAt(args, w, i)
      ensures if w in rest then i >= |piece| && LastAt(rest, w, i - |piece|) else LastAt(piece, w, i)
    {
      assert i >= |piece| ==> args[i] == rest[i - |piece|];
      if k :| 0 <= k < |rest| && rest[k] == w {
        assert args[|piece| + k] == w;
        assert forall j | i < j < |args| :: args[j] != w;
        assert forall j | i - |piece| < j < |rest| :: rest[j] == args[|piece| + j];
      } else {
        assert forall j | i < j < |piece| :: piece[j] == args[j];
      }
    }
  }

  lemma LastMoveSplits(piece: seq<string>, rest: seq<string>)
    ensures TouchesLocation(piece + rest) <==> TouchesLocation(piece) || TouchesLocation(rest)
    ensures forall i: nat | LastMoveAt(piece + rest, i) ::
      if TouchesLocation(rest) then i >= |piece| && LastMoveAt(rest, i - |piece|)
      else LastMoveAt(piece, i)
  {
    var args := piece + rest;
    assert forall k | 0 <= k < |rest| :: rest[k] == args[|piece| + k];
    assert forall k | 0 <= k < |piece| :: piece[k] == args[k];
    forall i: nat | LastMoveAt(args, i)
      ensures if TouchesLocation(rest) then i >= |piece| && LastMoveAt(rest, i - |piece|)
              else LastMoveAt(piece, i)
    {
      assert i >= |piece| ==> IsMove(rest[i - |piece|]);
      if k :| 0 <= k < |rest| && IsMove(rest[k]) {
        assert IsMove(args[|piece| + k]);
      }
    }
  }

  /** An option word begins an option and nothing else. */
  lemma OnlyFirstIsOption(words: Words, piece: seq<string>, e: Edit)
    requires words.Sensible() && Spells(words, piece, e)
    ensures piece != [] && piece[0] in OPTION_WORDS
    ensures forall k | 1 <= k < |piece| :: piece[k] !in OPTION_WORDS
  {
    assert forall k | 0 <= k < 5 :: OPTION_WORDS[k] in OPTION_WORDS;
    assert OPTION_WORDS[0] == "--clock" && OPTION_WORDS[1] == "--calendar";
    assert OPTION_WORDS[2] == "--seconds" && OPTION_WORDS[3] == "--location";
    assert OPTION_WORDS[4] == "--clear-location";
  }

  /** One option says what it is spelled to say. */
  lemma PieceTells(words: Words, piece: seq<string>, e: Edit, base: Policy)
    requires words.Sensible() && Spells(words, piece, e)
    ensures Tells(words, piece, base, Apply(e, base))
  {
    OnlyFirstIsOption(words, piece, e);
    assert forall k | 0 <= k < 5 :: OPTION_WORDS[k] in OPTION_WORDS;
    assert OPTION_WORDS[0] == "--clock" && OPTION_WORDS[1] == "--calendar";
    assert OPTION_WORDS[2] == "--seconds" && OPTION_WORDS[3] == "--location";
    assert OPTION_WORDS[4] == "--clear-location";
  }

  /** What the rest says goes over what the first option says. */
  lemma TellsOver(
    words: Words, piece: seq<string>, rest: seq<string>, base: Policy, q: Policy, p: Policy)
    requires Tells(words, piece, base, q) && Tells(words, rest, q, p)
    ensures Tells(words, piece + rest, base, p)
  {
    LastSplits(piece, rest, "--clock");
    LastSplits(piece, rest, "--calendar");
    LastSplits(piece, rest, "--seconds");
    LastSplits(piece, rest, "--location");
    LastMoveSplits(piece, rest);
  }

  lemma {:induction false} ApplyFirst(e: Edit, es: seq<Edit>, p: Policy)
    ensures ApplyAll([e] + es, p) == ApplyAll(es, Apply(e, p))
  {
    if es == [] {
      SingleEdit(e, p);
      assert [e] + es == [e];
    } else {
      assert ([e] + es)[..|es|] == [e] + es[..|es| - 1];
      ApplyFirst(e, es[..|es| - 1], p);
    }
  }

  lemma OneMoreTells(
    words: Words, piece: seq<string>, rest: seq<string>, e: Edit, base: Policy, p: Policy)
    requires words.Sensible() && Spells(words, piece, e) && Tells(words, rest, Apply(e, base), p)
    ensures Tells(words, piece + rest, base, p)
  {
    PieceTells(words, piece, e, base);
    TellsOver(words, piece, rest, base, Apply(e, base), p);
  }

  lemma NothingTold(words: Words, base: Policy)
    ensures Tells(words, [], base, base)
  {
  }

  lemma {:induction false} EditsTell(words: Words, args: seq<string>, es: seq<Edit>, base: Policy)
    requires words.Sensible() && Options(words, args) == Some(es)
    ensures Tells(words, args, base, ApplyAll(es, base))
    decreases |es|
  {
    if es == [] {
      assert args == [];
      NothingTold(words, base);
    } else {
      var e, more := es[0], es[1..];
      assert es == [e] + more;
      var piece, rest := OptionFirst(words, args, e, more);
      EditsTell(words, rest, more, Apply(e, base));
      ApplyFirst(e, more, base);
      OneMoreTells(words, piece, rest, e, base, ApplyAll(es, base));
    }
  }

  /** The edits of an accepted command make the policy that its words tell of. */
  lemma OptionsTell(words: Words, args: seq<string>, base: Policy)
    requires words.Sensible() && Options(words, args).Some?
    ensures Tells(words, args, base, ApplyAll(Options(words, args).value, base))
  {
    EditsTell(words, args, Options(words, args).value, base);
  }

  /** Publishing the edits one setter at a time, each result read back before the next. */
  function OneByOne(es: seq<Edit>, p: Policy): Policy {
    if es == [] then p else Stored(Apply(es[|es| - 1], OneByOne(es[..|es| - 1], p)))
  }

  /** A batch publishes what the corresponding single setters would have published. */
  lemma {:induction false} BatchIsSetters(es: seq<Edit>, p: Policy)
    requires Stored(p) == p
    ensures Stored(ApplyAll(es, p)) == OneByOne(es, p)
  {
    if es != [] {
      var first := es[..|es| - 1];
      BatchIsSetters(first, p);
      StoredIsStable(ApplyAll(first, p));
    }
  }

  /** The draft, and what the command will do about the metadata. */
  datatype Draft = Draft(policy: Policy, moves: bool, clears: bool, record: Option<Metadata>)

  /** The draft is the base with the edits applied, and its flags follow the last location
      edit. */
  predicate Drafted(d: Draft, es: seq<Edit>, base: Policy) {
    && d.policy == ApplyAll(es, base)
    && d.moves == LastMove(es).Some?
    && d.clears == (LastMove(es) == Some(Unplace))
    && (match LastMove(es)
        case Some(SetPlace(lat, lon)) => d.record == Some(CustomCoordinates(lat, lon))
        case _ => true)
  }

  lemma DraftedOneMore(d: Draft, es: seq<Edit>, e: Edit, base: Policy)
    requires Drafted(d, es, base)
    ensures ApplyAll(es + [e], base) == Apply(e, d.policy)
    ensures LastMove(es + [e]) == if MovesPlace(e) then Some(e) else LastMove(es)
  {
    assert (es + [e])[..|es|] == es;
  }

  /** One option's effect on the draft and its flags. */
  method AddOption(d: Draft, ghost done: seq<Edit>, e: Edit, ghost base: Policy)
    returns (d': Draft)
    requires Drafted(d, done, base)
    ensures Drafted(d', done + [e], base)
  {
    DraftedOneMore(d, done, e, base);
    d' := d.(policy := Apply(e, d.policy));
    if e.SetPlace? {
      d' := d'.(moves := true, clears := false,
                record := Some(CustomCoordinates(e.latitude, e.longitude)));
    } else if e.Unplace? {
      d' := d'.(moves := true, clears := true);
    }
  }

  /** The options from `index` on are what is left of the command after `done`. */
  predicate Remaining(words: Words, args: seq<string>, done: seq<Edit>, index: nat)
    requires index <= |args|
  {
    var rest := Options(words, args[index..]);
    Options(words, args) == if rest.None? then None else Some(done + rest.value)
  }

  lemma RemainingAtStart(words: Words, args: seq<string>)
    ensures Remaining(words, args, [], 0)
  {
    assert args[0..] == args;
    assert forall es: seq<Edit> :: [] + es == es;
  }

  lemma RemainingAfter(words: Words, args: seq<string>, done: seq<Edit>, index: nat)
    requires index < |args| && Remaining(words, args, done, index)
    requires FirstOption(words, args[index..]).Some?
    ensures
      var (e, taken) := FirstOption(words, args[index..]).value;
      Remaining(words, args, done + [e], index + taken)
  {
    var left := args[index..];
    var (e, taken) := FirstOption(words, left).value;
    assert left[taken..] == args[index + taken..];
    var rest := Options(words, left[taken..]);
    if rest.Some? {
      assert done + ([e] + rest.value) == done + [e] + rest.value;
    }
  }

  /** Folds the options into a draft, or rejects the command line. */
  method FoldOptions(words: Words, args: seq<string>, base: Policy)
    returns (draft: Option<Draft>)
    ensures draft.Some? <==> Options(words, args).Some?
    ensures draft.Some? <==> Acceptable(words, args)
    ensures draft.Some? && words.Sensible() ==> Tells(words, args, base, draft.value.policy)
    ensures draft.Some? ==> Drafted(draft.value, Options(words, args).value, base)
  {
    var d := Draft(base, false, false, None);
    var index := 0;
    ghost var done: seq<Edit> := [];
    RemainingAtStart(words, args);
    OptionsAreExact(words, args);
    while index < |args|
      invariant 0 <= index <= |args|
      invariant Drafted(d, done, base)
      invariant Remaining(words, args, done, index)
    {
      var first := FirstOption(words, args[index..]);
      if first.None? {
        return None;
      }
      var (e, taken) := first.value;
      RemainingAfter(words, args, done, index);
      d := AddOption(d, done, e, base);
      index := index + taken;
      done := done + [e];
    }
    assert done + [] == done;
    if words.Sensible() {
      OptionsTell(words, args, base);
    }
    return Some(d);
  }
}
