/** The pending masks of the display driver (msm_drm_private.pending_crtcs,
    pending_planes and pending_rm) and the mask arithmetic of start_atomic and
    end_atomic.  A CRTC, a plane or a hardware resource is named by the one-bit
    mask that stands for it, so that the bit tests of the driver can be read as
    set operations on objects. */
module CommitMasks {

  import opened MaskBits

  type Bit32 = b: bv32 | OneBit32(b) witness 1
  type Bit64 = b: bv64 | OneBit64(b) witness 1

  datatype Obj = Crtc(crtcBit: Bit32) | Plane(planeBit: Bit32) | Resource(rmBit: Bit64)

  datatype Masks = Masks(crtcs: bv32, planes: bv32, rm: bv64)

  predicate Has(m: Masks, o: Obj) {
    match o
    case Crtc(b) => Meet32(m.crtcs, b)
    case Plane(b) => Meet32(m.planes, b)
    case Resource(b) => Meet64(m.rm, b)
  }

  /** The negation of the condition start_atomic waits for. */
  predicate Busy(pending: Masks, m: Masks) {
    Meet32(pending.crtcs, m.crtcs) || Meet32(pending.planes, m.planes) || Meet64(pending.rm, m.rm)
  }

  function Mark(pending: Masks, m: Masks): Masks {
    Masks(Set32(pending.crtcs, m.crtcs), Set32(pending.planes, m.planes), Set64(pending.rm, m.rm))
  }

  function Clear(pending: Masks, m: Masks): Masks {
    Masks(Clear32(pending.crtcs, m.crtcs), Clear32(pending.planes, m.planes), Clear64(pending.rm, m.rm))
  }

  ghost predicate Represents(m: Masks, s: set<Obj>) {
    forall o: Obj :: o in s <==> Has(m, o)
  }

  lemma HasOps(p: Masks, m: Masks, o: Obj)
    ensures Has(Mark(p, m), o) <==> Has(p, o) || Has(m, o)
    ensures Has(Clear(p, m), o) <==> Has(p, o) && !Has(m, o)
    ensures Has(p, o) && Has(m, o) ==> Busy(p, m)
  {
    hide Meet32, Meet64, Set32, Set64, Clear32, Clear64, OneBit32, OneBit64;
    match o
    case Crtc(b) => BitOps32(p.crtcs, m.crtcs, b);
    case Plane(b) => BitOps32(p.planes, m.planes, b);
    case Resource(b) => BitOps64(p.rm, m.rm, b);
  }

  lemma BusyHasWitness(p: Masks, m: Masks) returns (o: Obj)
    requires Busy(p, m)
    ensures Has(p, o) && Has(m, o)
  {
    hide Meet32, Meet64, OneBit32, OneBit64;
    if Meet32(p.crtcs, m.crtcs) {
      var b := SharedBit32(p.crtcs, m.crtcs);
      o := Crtc(b);
    } else if Meet32(p.planes, m.planes) {
      var b := SharedBit32(p.planes, m.planes);
      o := Plane(b);
    } else {
      var b := SharedBit64(p.rm, m.rm);
      o := Resource(b);
    }
  }

  /** Marking is the union of the two object sets. */
  lemma MarkIsUnion(p: Masks, m: Masks, s: set<Obj>, t: set<Obj>)
    requires Represents(p, s) && Represents(m, t)
    ensures Represents(Mark(p, m), s + t)
  {
    hide Has, Mark;
    forall o: Obj ensures o in s + t <==> Has(Mark(p, m), o) {
      HasOps(p, m, o);
    }
  }

  /** Clearing is the difference of the two object sets. */
  lemma ClearIsDifference(p: Masks, m: Masks, s: set<Obj>, t: set<Obj>)
    requires Represents(p, s) && Represents(m, t)
    ensures Represents(Clear(p, m), s - t)
  {
    hide Has, Clear;
    forall o: Obj ensures o in s - t <==> Has(Clear(p, m), o) {
      HasOps(p, m, o);
    }
  }

  /** The three bit tests find the masks busy exactly when some object is in both sets. */
  lemma BusyIffShared(p: Masks, m: Masks, s: set<Obj>, t: set<Obj>)
    requires Represents(p, s) && Represents(m, t)
    ensures Busy(p, m) <==> !(s !! t)
  {
    hide Has, Busy;
    if Busy(p, m) {
      var o := BusyHasWitness(p, m);
      assert o in s && o in t;
    }
    if o: Obj :| o in s && o in t {
      HasOps(p, m, o);
    }
  }
}
