/** Application life-cycle states: a custom (application-specific) state is
    SELECTABLE (b3-b1 set) with any of b7-b4, and b8 clear. */
module LifecycleApplication {
  import opened Octets

  const ApplicationInstalled: byte := 0x03
  const ApplicationSelectable: byte := 0x07
  const ApplicationLocked: byte := 0x83

  /** IsValidCustomApplicationState */
  predicate IsValidCustomApplicationState(state: byte) {
    state & ApplicationSelectable == ApplicationSelectable && state & B8 == 0
  }

  /** The valid custom states are exactly 0x07 | (k << 3) for k in 0 to 15:
      sixteen of the 256 byte values. */
  lemma ValidCustomStates(state: byte)
    ensures IsValidCustomApplicationState(state) <==> state & 0x87 == 0x07
    ensures IsValidCustomApplicationState(state) <==> state in ValidStates()
  {
    if IsValidCustomApplicationState(state) {
      ValidStatesHold(state);
    }
  }

  /** The sixteen valid custom states, in increasing order. */
  function ValidStates(): (r: seq<byte>)
    ensures |r| == 16
    ensures forall i, j :: 0 <= i < j < |r| ==> r[i] < r[j]
  {
    [0x07, 0x0F, 0x17, 0x1F, 0x27, 0x2F, 0x37, 0x3F, 0x47, 0x4F, 0x57, 0x5F, 0x67, 0x6F, 0x77, 0x7F]
  }

  lemma ValidStatesHold(state: byte)
    requires state & 0x87 == 0x07
    ensures state in ValidStates()
  {
    var k := (state >> 3) & 0x0F;
    assert state == 0x07 | (k << 3);
    var r := ValidStates();
    if k < 8 {
      if k < 4 {
        if k < 2 { if k == 0 { assert state == r[0]; } else { assert state == r[1]; } }
        else { if k == 2 { assert state == r[2]; } else { assert state == r[3]; } }
      } else {
        if k < 6 { if k == 4 { assert state == r[4]; } else { assert state == r[5]; } }
        else { if k == 6 { assert state == r[6]; } else { assert state == r[7]; } }
      }
    } else {
      if k < 12 {
        if k < 10 { if k == 8 { assert state == r[8]; } else { assert state == r[9]; } }
        else { if k == 10 { assert state == r[10]; } else { assert state == r[11]; } }
      } else {
        if k < 14 { if k == 12 { assert state == r[12]; } else { assert state == r[13]; } }
        else { if k == 14 { assert state == r[14]; } else { assert state == r[15]; } }
      }
    }
  }

  lemma ExampleStates()
    ensures IsValidCustomApplicationState(ApplicationSelectable)
    ensures !IsValidCustomApplicationState(ApplicationLocked)
    ensures !IsValidCustomApplicationState(ApplicationInstalled)
    ensures IsValidCustomApplicationState(0x7F) && !IsValidCustomApplicationState(0xFF)
  {
  }
}
