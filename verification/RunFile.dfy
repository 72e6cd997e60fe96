/** The self-extracting run file: an installer, a payload and a 32-byte footer that says how
    long the payload is. */
module RunFile {
  import opened Optional
  import opened Bytes
  import opened Decimals

  const FOOTER_SIZE := 32
  const PAYLOAD_DIGITS := 20
  const FOOTER_PREFIX: Text := "\nSSPAYLOAD="
  const UINT64 := 0x1_0000_0000_0000_0000
  const OFF_T_MAX := 0x7fff_ffff_ffff_ffff

  lemma TwentyDigitsSuffice()
    ensures UINT64 <= Pow10(PAYLOAD_DIGITS)
  {
    assert Pow10(10) == 1_00000_00000 by { assert Pow10(5) == 100000; }
    assert Pow10(15) == 1_00000_00000_00000;
  }

  // ----- Layout

  function Footer(size: nat): (text: Text)
    ensures |text| == FOOTER_SIZE
  {
    FOOTER_PREFIX + Digits(size, PAYLOAD_DIGITS) + "\n"
  }

  function RunFileOf(installer: Text, payload: Text): Text {
    installer + payload + Footer(|payload|)
  }

  /** The payload size a footer announces, if it is one; the conversion rejects what does
      not fit sixty-four bits, and zero is no payload. */
  function Announced(footer: Text): Option<nat>
    requires |footer| == FOOTER_SIZE
  {
    var digits := footer[|FOOTER_PREFIX|..FOOTER_SIZE - 1];
    if footer[..|FOOTER_PREFIX|] != FOOTER_PREFIX || footer[FOOTER_SIZE - 1] != '\n' then None
    else if !AllDigits(digits) || Value(digits) >= UINT64 || Value(digits) == 0 then None
    else Some(Value(digits))
  }

  /** An unsigned size read as a signed file offset. */
  function AsOffset(size: nat): int {
    if size <= OFF_T_MAX then size else size - UINT64
  }

  /** Where the installer looks for its payload: a start offset and a size. The size check is
      made on sixty-four bits, so adding the footer size wraps around. */
  function Bounds(file: Text): Option<(int, nat)> {
    if |file| < FOOTER_SIZE then None
    else
      var size := Announced(file[|file| - FOOTER_SIZE..]);
      if size.None? || |file| < (size.value + FOOTER_SIZE) % UINT64 then None
      else
        var start := |file| - FOOTER_SIZE - AsOffset(size.value);
        if start > 0 then Some((start, size.value)) else None
  }

  /** The size check did not wrap around. */
  predicate Unwrapped(size: nat) {
    size + FOOTER_SIZE < UINT64
  }

  lemma AnnouncedFooter(size: nat)
    requires 0 < size < UINT64
    ensures Announced(Footer(size)) == Some(size)
  {
    TwentyDigitsSuffice();
    ValueOfDigits(size, PAYLOAD_DIGITS);
    var footer := Footer(size);
    assert footer[|FOOTER_PREFIX|..FOOTER_SIZE - 1] == Digits(size, PAYLOAD_DIGITS);
    assert footer[..|FOOTER_PREFIX|] == FOOTER_PREFIX;
  }

  lemma FooterAnnounced(footer: Text)
    requires |footer| == FOOTER_SIZE && Announced(footer).Some?
    ensures footer == Footer(Announced(footer).value)
  {
    var digits := footer[|FOOTER_PREFIX|..FOOTER_SIZE - 1];
    DigitsOfValue(digits);
    assert footer == footer[..|FOOTER_PREFIX|] + digits + [footer[FOOTER_SIZE - 1]];
  }

  /** Round trip: the bounds of every run file are exactly its payload's. */
  lemma PayloadIsFound(installer: Text, payload: Text)
    requires installer != [] && payload != []
    requires |RunFileOf(installer, payload)| <= OFF_T_MAX
    ensures
      var file := RunFileOf(installer, payload);
      && Bounds(file) == Some((|installer|, |payload|))
      && file[|installer|..|installer| + |payload|] == payload
  {
    var file := RunFileOf(installer, payload);
    assert file[|file| - FOOTER_SIZE..] == Footer(|payload|);
    AnnouncedFooter(|payload|);
  }

  /** A file is a run file exactly when bounds are found and the size check did not wrap. */
  lemma BoundsAreGenuine(file: Text)
    requires |file| <= OFF_T_MAX
    ensures
      (Bounds(file).Some? && Unwrapped(Bounds(file).value.1)) <==>
      (exists installer: Text, payload: Text ::
         installer != [] && payload != [] && file == RunFileOf(installer, payload))
  {
    if Bounds(file).Some? && Unwrapped(Bounds(file).value.1) {
      var (start, size) := Bounds(file).value;
      var footer := file[|file| - FOOTER_SIZE..];
      FooterAnnounced(footer);
      assert file == RunFileOf(file[..start], file[start..start + size]) by {
        assert file == file[..start] + file[start..start + size] + footer;
      }
    }
    if installer: Text, payload: Text :|
      installer != [] && payload != [] && file == RunFileOf(installer, payload)
    {
      PayloadIsFound(installer, payload);
    }
  }

  /** Without wrapping the range lies inside the file; with it, it always runs past the end. */
  lemma WrappedRangeIsOutside(file: Text)
    requires |file| <= OFF_T_MAX && Bounds(file).Some?
    ensures
      var (start, size) := Bounds(file).value;
      start + size <= |file| <==> Unwrapped(size)
  {
  }

  /** The largest size a footer can announce is accepted for a file that ends after it. */
  lemma HugeSizeIsAccepted(installer: Text)
    requires 0 < |installer| <= OFF_T_MAX - FOOTER_SIZE
    ensures
      var file := installer + Footer(UINT64 - 1);
      Bounds(file) == Some((|installer| + 1, UINT64 - 1))
  {
    var file := installer + Footer(UINT64 - 1);
    assert file[|file| - FOOTER_SIZE..] == Footer(UINT64 - 1);
    AnnouncedFooter(UINT64 - 1);
  }
}
