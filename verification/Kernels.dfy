/** Numeric kernels over the same data in two layouts: one array of records, one array a column. */
module Kernels {

  // ---------------------------------------------------------------------------------
  // Particles

  datatype Particle = Particle(x: real, y: real, z: real, vx: real, vy: real, vz: real, mass: real)

  // A product by name, so that proofs need not multiply.
  function Times(a: real, b: real): real {
    a * b
  }

  // One particle over one step of time: a new velocity, then a new place.
  function Kick(p: Particle, dt: real): Particle {
    p.(vx := p.vx + Times(-0.125 * p.x + 0.0003 * p.mass, dt),
       vy := p.vy + Times(-0.125 * p.y + 0.0002 * p.mass, dt),
       vz := p.vz + Times(-0.125 * p.z + 0.0001 * p.mass, dt))
  }

  function Drift(p: Particle, dt: real): Particle {
    p.(x := p.x + Times(p.vx, dt), y := p.y + Times(p.vy, dt), z := p.z + Times(p.vz, dt))
  }

  function Move(p: Particle, dt: real): Particle {
    Drift(Kick(p, dt), dt)
  }

  // Where no force acts: at three ten-thousandths of the mass times eight, two of them in y and
  // one in z; and a particle eight units further out is pulled back by one unit of speed per
  // unit of time.
  lemma KickBalance(p: Particle, dt: real)
    requires dt != 0.0
    ensures Kick(p, dt).vx == p.vx <==> p.x == 0.0024 * p.mass
    ensures Kick(p, dt).vy == p.vy <==> p.y == 0.0016 * p.mass
    ensures Kick(p, dt).vz == p.vz <==> p.z == 0.0008 * p.mass
  {
    NoProduct(-0.125 * p.x + 0.0003 * p.mass, dt);
    NoProduct(-0.125 * p.y + 0.0002 * p.mass, dt);
    NoProduct(-0.125 * p.z + 0.0001 * p.mass, dt);
  }

  lemma NoProduct(a: real, b: real)
    requires b != 0.0
    ensures Times(a, b) == 0.0 <==> a == 0.0
  {
  }

  lemma KickPull(p: Particle, dt: real)
    ensures Kick(p.(x := p.x + 8.0), dt).vx == Kick(p, dt).vx - dt
    ensures Kick(p.(y := p.y + 8.0), dt).vy == Kick(p, dt).vy - dt
    ensures Kick(p.(z := p.z + 8.0), dt).vz == Kick(p, dt).vz - dt
    ensures Kick(p, dt) == p.(vx := Kick(p, dt).vx, vy := Kick(p, dt).vy, vz := Kick(p, dt).vz)
  {
    TimesOneLess(-0.125 * p.x + 0.0003 * p.mass, dt);
    TimesOneLess(-0.125 * p.y + 0.0002 * p.mass, dt);
    TimesOneLess(-0.125 * p.z + 0.0001 * p.mass, dt);
  }

  lemma TimesOneLess(a: real, b: real)
    ensures Times(a - 1.0, b) == Times(a, b) - b
  {
  }

  // A particle drifts by its velocity times the time, and back by the same.
  lemma DriftBack(p: Particle, dt: real)
    ensures Drift(Drift(p, dt), -dt) == p
    ensures Drift(p, dt) == p.(x := Drift(p, dt).x, y := Drift(p, dt).y, z := Drift(p, dt).z)
    ensures Drift(p, 1.0) == p.(x := p.x + p.vx, y := p.y + p.vy, z := p.z + p.vz)
  {
  }

  function Moved(p: Particle, steps: nat, dt: real): Particle {
    if steps == 0 then p else Move(Moved(p, steps - 1, dt), dt)
  }

  function AllMoved(ps: seq<Particle>, steps: nat, dt: real): seq<Particle> {
    seq(|ps|, i requires 0 <= i < |ps| => Moved(ps[i], steps, dt))
  }

  function Checksum(ps: seq<Particle>, n: nat): real
    requires n <= |ps|
  {
    if n == 0 then 0.0
    else
      var p := ps[n - 1];
      Checksum(ps, n - 1) + (Times(p.x, ((n - 1) % 7 + 1) as real) + p.y * 0.5 + p.z * 0.25 + p.vx * 0.125)
  }

  // What one particle adds to the checksum of an array, by its place in it.
  lemma {:induction false} ChecksumCounts(ps: seq<Particle>, n: nat, i: nat, q: Particle)
    requires i < n <= |ps|
    ensures Checksum(ps[i := q], n) - Checksum(ps, n) ==
            (q.x - ps[i].x) * (i % 7 + 1) as real + (q.y - ps[i].y) / 2.0 + (q.z - ps[i].z) / 4.0 + (q.vx - ps[i].vx) / 8.0
  {
    if i < n - 1 {
      ChecksumCounts(ps, n - 1, i, q);
    } else {
      ChecksumAhead(ps, n - 1, i, q);
    }
  }

  lemma {:induction false} ChecksumAhead(ps: seq<Particle>, n: nat, i: nat, q: Particle)
    requires n <= i < |ps|
    ensures Checksum(ps[i := q], n) == Checksum(ps, n)
  {
    if n > 0 {
      ChecksumAhead(ps, n - 1, i, q);
    }
  }

  lemma ChecksumOfNone(ps: seq<Particle>)
    ensures Checksum(ps, 0) == 0.0
  {
  }

  method ChecksumParticlesAoS(ps: array<Particle>) returns (sum: real)
    ensures sum == Checksum(ps[..], ps.Length)
  {
    hide Times;
    sum := 0.0;
    for i := 0 to ps.Length
      invariant sum == Checksum(ps[..], i)
    {
      var weight := (i % 7 + 1) as real;
      sum := sum + (Times(ps[i].x, weight) + ps[i].y * 0.5 + ps[i].z * 0.25 + ps[i].vx * 0.125);
    }
  }

  method KickAoS(ps: array<Particle>, i: nat, dt: real)
    requires i < ps.Length
    modifies ps
    ensures ps[i] == Kick(old(ps[i]), dt)
    ensures forall k | 0 <= k < ps.Length && k != i :: ps[k] == old(ps[k])
  {
    hide Times;
    var ax := -0.125 * ps[i].x + 0.0003 * ps[i].mass;
    var ay := -0.125 * ps[i].y + 0.0002 * ps[i].mass;
    var az := -0.125 * ps[i].z + 0.0001 * ps[i].mass;
    ps[i] := ps[i].(vx := ps[i].vx + Times(ax, dt));
    ps[i] := ps[i].(vy := ps[i].vy + Times(ay, dt));
    ps[i] := ps[i].(vz := ps[i].vz + Times(az, dt));
  }

  method DriftAoS(ps: array<Particle>, i: nat, dt: real)
    requires i < ps.Length
    modifies ps
    ensures ps[i] == Drift(old(ps[i]), dt)
    ensures forall k | 0 <= k < ps.Length && k != i :: ps[k] == old(ps[k])
  {
    hide Times;
    ps[i] := ps[i].(x := ps[i].x + Times(ps[i].vx, dt));
    ps[i] := ps[i].(y := ps[i].y + Times(ps[i].vy, dt));
    ps[i] := ps[i].(z := ps[i].z + Times(ps[i].vz, dt));
  }

  method IntegrateAoS(ps: array<Particle>, steps: nat, dt: real) returns (sum: real)
    modifies ps
    ensures ps[..] == AllMoved(old(ps[..]), steps, dt)
    ensures sum == Checksum(ps[..], ps.Length)
  {
    hide Kick, Drift;
    ghost var start := ps[..];
    for step := 0 to steps
      invariant ps[..] == AllMoved(start, step, dt)
    {
      for i := 0 to ps.Length
        invariant forall k | 0 <= k < i :: ps[k] == Moved(start[k], step + 1, dt)
        invariant forall k | i <= k < ps.Length :: ps[k] == Moved(start[k], step, dt)
      {
        KickAoS(ps, i, dt);
        DriftAoS(ps, i, dt);
      }
    }
    sum := ChecksumParticlesAoS(ps);
  }

  // One array a column; the columns are distinct objects of one length.
  class ParticlesSoA {
    const x: array<real>
    const y: array<real>
    const z: array<real>
    const vx: array<real>
    const vy: array<real>
    const vz: array<real>
    const mass: array<real>

    ghost predicate Valid() {
      && x !in {y, z, vx, vy, vz, mass} && y !in {z, vx, vy, vz, mass} && z !in {vx, vy, vz, mass}
      && vx !in {vy, vz, mass} && vy !in {vz, mass} && vz != mass
      && x.Length == y.Length == z.Length == vx.Length == vy.Length == vz.Length == mass.Length
    }

    constructor (x: array<real>, y: array<real>, z: array<real>, vx: array<real>, vy: array<real>, vz: array<real>, mass: array<real>)
      ensures this.x == x && this.y == y && this.z == z && this.vx == vx && this.vy == vy && this.vz == vz && this.mass == mass
    {
      this.x, this.y, this.z, this.vx, this.vy, this.vz, this.mass := x, y, z, vx, vy, vz, mass;
    }

    // The particle that the columns hold at i.
    function At(i: nat): Particle
      requires Valid() && i < x.Length
      reads x, y, z, vx, vy, vz, mass
    {
      Particle(x[i], y[i], z[i], vx[i], vy[i], vz[i], mass[i])
    }

    function All(): (ps: seq<Particle>)
      requires Valid()
      reads x, y, z, vx, vy, vz, mass
    {
      seq(x.Length, i requires Valid() && 0 <= i < x.Length reads x, y, z, vx, vy, vz, mass => At(i))
    }

    lemma AllSize()
      requires Valid()
      ensures |All()| == x.Length
    {
    }

    lemma AllAt(i: nat)
      requires Valid() && i < x.Length
      ensures All()[i] == At(i)
    {
    }

    method ChecksumParticlesSoA() returns (sum: real)
      requires Valid()
      ensures sum == Checksum(All(), x.Length)
    {
      hide Times, All;
      AllSize();
      sum := 0.0;
      for i := 0 to x.Length
        invariant sum == Checksum(All(), i)
      {
        var weight := (i % 7 + 1) as real;
        AllAt(i);
        sum := sum + (Times(x[i], weight) + y[i] * 0.5 + z[i] * 0.25 + vx[i] * 0.125);
      }
    }

    method Integrate(steps: nat, dt: real) returns (sum: real)
      requires Valid()
      modifies x, y, z, vx, vy, vz
      ensures All() == AllMoved(old(All()), steps, dt)
      ensures sum == Checksum(All(), x.Length)
    {
      ghost var start := All();
      for step := 0 to steps
        invariant All() == AllMoved(start, step, dt)
      {
        Sweep(start, step, dt);
      }
      sum := ChecksumParticlesSoA();
    }

    // The inner loop: every particle moves once.
    method Sweep(ghost start: seq<Particle>, ghost step: nat, dt: real)
      requires Valid() && All() == AllMoved(start, step, dt)
      modifies x, y, z, vx, vy, vz
      ensures All() == AllMoved(start, step + 1, dt)
    {
      hide Kick, Drift;
      assert forall k | 0 <= k < x.Length :: All()[k] == At(k);
      for i := 0 to x.Length
        invariant forall k | 0 <= k < i :: At(k) == Moved(start[k], step + 1, dt)
        invariant forall k | i <= k < x.Length :: At(k) == Moved(start[k], step, dt)
      {
        KickAt(i, dt);
        DriftAt(i, dt);
      }
    }

    method KickAt(i: nat, dt: real)
      requires Valid() && i < x.Length
      modifies vx, vy, vz
      ensures At(i) == Kick(old(At(i)), dt)
      ensures forall k | 0 <= k < x.Length && k != i :: At(k) == old(At(k))
    {
      hide Times;
      var ax := -0.125 * x[i] + 0.0003 * mass[i];
      var ay := -0.125 * y[i] + 0.0002 * mass[i];
      var az := -0.125 * z[i] + 0.0001 * mass[i];
      vx[i] := vx[i] + Times(ax, dt);
      vy[i] := vy[i] + Times(ay, dt);
      vz[i] := vz[i] + Times(az, dt);
    }

    method DriftAt(i: nat, dt: real)
      requires Valid() && i < x.Length
      modifies x, y, z
      ensures At(i) == Drift(old(At(i)), dt)
      ensures forall k | 0 <= k < x.Length && k != i :: At(k) == old(At(k))
    {
      hide Times;
      x[i] := x[i] + Times(vx[i], dt);
      y[i] := y[i] + Times(vy[i], dt);
      z[i] := z[i] + Times(vz[i], dt);
    }
  }

  // Steps add up: integrating twice is integrating for the sum of the steps.
  lemma {:induction false} MovedAdds(p: Particle, m: nat, n: nat, dt: real)
    ensures Moved(Moved(p, m, dt), n, dt) == Moved(p, m + n, dt)
  {
    if n > 0 {
      MovedAdds(p, m, n - 1, dt);
    }
  }

  // The two layouts, started alike, stay alike, particle by particle and in the checksum.
  method IntegrateBoth(ps: array<Particle>, soa: ParticlesSoA, steps: nat, dt: real) returns (sumAoS: real, sumSoA: real)
    requires soa.Valid() && ps[..] == soa.All()
    modifies ps, soa.x, soa.y, soa.z, soa.vx, soa.vy, soa.vz
    ensures ps[..] == soa.All() == AllMoved(old(ps[..]), steps, dt)
    ensures sumAoS == sumSoA
  {
    sumAoS := IntegrateAoS(ps, steps, dt);
    sumSoA := soa.Integrate(steps, dt);
  }

  // ---------------------------------------------------------------------------------
  // Records

  datatype Record = Record(id: int, group: int, active: bool, value: real, weight: real)

  // Go's remainder, with the sign of the dividend.
  function Rem(a: int, b: int): int
    requires b > 0
  {
    if a >= 0 then a % b else -((-a) % b)
  }

  predicate Keep(active: bool, group: int, value: real, weight: real) {
    active && (Rem(group, 5) == 0 || value * weight > 18.0)
  }

  // Kept are the active records whose group is a multiple of five, negative ones included, or
  // whose value times weight is over eighteen.
  lemma KeepExactly(active: bool, group: int, value: real, weight: real)
    ensures Keep(active, group, value, weight) <==> active && ((exists q: int :: group == 5 * q) || value * weight > 18.0)
  {
    if Rem(group, 5) == 0 {
      var q := if group >= 0 then group / 5 else -((-group) / 5);
      assert group == 5 * q;
    }
    if exists q: int :: group == 5 * q {
      var q: int :| group == 5 * q;
      MultipleHasNoRemainder(q);
    }
  }

  lemma MultipleHasNoRemainder(q: int)
    ensures Rem(5 * q, 5) == 0
  {
    if q >= 0 {
      assert (5 * q) % 5 == 0;
    } else {
      assert (5 * (-q)) % 5 == 0;
    }
  }

  function Filter(rs: seq<Record>): seq<Record> {
    if rs == [] then []
    else
      var r := rs[|rs| - 1];
      Filter(rs[..|rs| - 1]) + if Keep(r.active, r.group, r.value, r.weight) then [r] else []
  }

  datatype RecordsSoA = RecordsSoA(id: seq<int>, group: seq<int>, active: seq<bool>, value: seq<real>, weight: seq<real>)
  {
    predicate Valid() {
      |id| == |group| == |active| == |value| == |weight|
    }
  }

  function Unzip(rs: seq<Record>): RecordsSoA {
    RecordsSoA(
      seq(|rs|, i requires 0 <= i < |rs| => rs[i].id),
      seq(|rs|, i requires 0 <= i < |rs| => rs[i].group),
      seq(|rs|, i requires 0 <= i < |rs| => rs[i].active),
      seq(|rs|, i requires 0 <= i < |rs| => rs[i].value),
      seq(|rs|, i requires 0 <= i < |rs| => rs[i].weight))
  }

  function Push(c: RecordsSoA, r: Record): RecordsSoA {
    RecordsSoA(c.id + [r.id], c.group + [r.group], c.active + [r.active], c.value + [r.value], c.weight + [r.weight])
  }

  lemma UnzipPush(rs: seq<Record>, r: Record)
    ensures Unzip(rs + [r]) == Push(Unzip(rs), r)
  {
    var all := rs + [r];
    assert Unzip(all).id == Unzip(rs).id + [r.id];
    assert Unzip(all).group == Unzip(rs).group + [r.group];
    assert Unzip(all).active == Unzip(rs).active + [r.active];
    assert Unzip(all).value == Unzip(rs).value + [r.value];
    assert Unzip(all).weight == Unzip(rs).weight + [r.weight];
  }

  // Filtering works piece by piece, so the kept records stay in order and none is dropped.
  lemma {:induction false} FilterConcat(a: seq<Record>, b: seq<Record>)
    ensures Filter(a + b) == Filter(a) + Filter(b)
    decreases |b|
  {
    if b == [] {
      assert a + b == a;
    } else {
      FilterConcat(a, b[..|b| - 1]);
      assert (a + b)[..|a + b| - 1] == a + b[..|b| - 1];
    }
  }

  lemma FilterStep(rs: seq<Record>, i: nat)
    requires i < |rs|
    ensures Filter(rs[..i + 1]) == Filter(rs[..i]) + if Keep(rs[i].active, rs[i].group, rs[i].value, rs[i].weight) then [rs[i]] else []
  {
    assert rs[..i + 1][..i] == rs[..i];
  }

  // An append to a slice: in place while there is room, else into a longer copy.
  method Append<T>(buffer: array<T>, n: nat, x: T) returns (buffer': array<T>)
    requires n <= buffer.Length
    modifies buffer
    ensures n < buffer'.Length && buffer'[..n + 1] == old(buffer[..n]) + [x]
    ensures buffer' == buffer || fresh(buffer')
    ensures n < buffer.Length ==> buffer' == buffer
    ensures forall k | 0 <= k < buffer.Length && k != n :: buffer[k] == old(buffer[k])
    ensures buffer' != buffer ==> buffer[..] == old(buffer[..])
  {
    if n < buffer.Length {
      buffer[n] := x;
      buffer' := buffer;
    } else {
      buffer' := new T[2 * n + 1](_ => x);
      for k := 0 to n
        invariant forall j | 0 <= j < k :: buffer'[j] == buffer[j]
        invariant buffer'[n] == x && unchanged(buffer)
      {
        buffer'[k] := buffer[k];
      }
      assert buffer'[..n] == buffer[..n] && buffer'[..n + 1] == buffer'[..n] + [x];
    }
  }

  // The kept records, in order, even when dst is the storage of src.
  method FilterRecordsAoS(src: array<Record>, dst: array<Record>) returns (buffer: array<Record>, n: nat)
    modifies dst
    ensures n <= buffer.Length && buffer[..n] == Filter(old(src[..]))
  {
    hide Keep;
    ghost var rs := src[..];
    buffer, n := dst, 0;
    assert Filter(rs[..0]) == [];
    for i := 0 to src.Length
      invariant n <= i && n <= buffer.Length
      invariant buffer == dst || fresh(buffer)
      invariant buffer[..n] == Filter(rs[..i])
      invariant forall k | i <= k < src.Length :: src[k] == rs[k]
      invariant dst == src ==> buffer == src
    {
      FilterStep(rs, i);
      if Keep(src[i].active, src[i].group, src[i].value, src[i].weight) {
        buffer := Append(buffer, n, src[i]);
        n := n + 1;
      }
    }
    assert rs[..src.Length] == rs;
  }

  // ---------------------------------------------------------------------------------
  // Columns in storage of their own

  // Five slices of one length.
  datatype Columns = Columns(id: array<int>, group: array<int>, active: array<bool>, value: array<real>, weight: array<real>, n: nat)
  {
    // No two columns share storage.
    predicate Valid() {
      && n <= id.Length && n <= group.Length && n <= active.Length && n <= value.Length && n <= weight.Length
      && id != group && value != weight
    }

    function Rows(): RecordsSoA
      requires Valid()
      reads id, group, active, value, weight
    {
      RecordsSoA(id[..n], group[..n], active[..n], value[..n], weight[..n])
    }

    function Row(i: nat): Record
      requires Valid() && i < n
      reads id, group, active, value, weight
    {
      Record(id[i], group[i], active[i], value[i], weight[i])
    }

    function Records(): seq<Record>
      requires Valid()
      reads id, group, active, value, weight
    {
      seq(n, i requires 0 <= i < n reads id, group, active, value, weight => Row(i))
    }
  }

  // A column may reuse the storage of the same column, but of no other.
  predicate Columnwise(c: Columns, d: Columns) {
    c.id != d.group && c.group != d.id && c.value != d.weight && c.weight != d.value
  }

  // Each column has kept its storage or moved to storage of its own.
  twostate predicate Extends(new c': Columns, c: Columns) {
    && (c'.id == c.id || fresh(c'.id)) && (c'.group == c.group || fresh(c'.group))
    && (c'.active == c.active || fresh(c'.active))
    && (c'.value == c.value || fresh(c'.value)) && (c'.weight == c.weight || fresh(c'.weight))
  }

  method AppendTwo<T>(a: array<T>, b: array<T>, n: nat, x: T, y: T) returns (a': array<T>, b': array<T>)
    requires a != b && n <= a.Length && n <= b.Length
    modifies a, b
    ensures a' != b' && n < a'.Length && n < b'.Length
    ensures a'[..n + 1] == old(a[..n]) + [x] && b'[..n + 1] == old(b[..n]) + [y]
    ensures (a' == a || fresh(a')) && (b' == b || fresh(b'))
    ensures forall k | 0 <= k < a.Length && k != n :: a[k] == old(a[k])
    ensures forall k | 0 <= k < b.Length && k != n :: b[k] == old(b[k])
  {
    a' := Append(a, n, x);
    b' := Append(b, n, y);
  }

  // Appends to the five columns.
  method AppendRow(c: Columns, r: Record) returns (c': Columns)
    requires c.Valid()
    modifies c.id, c.group, c.active, c.value, c.weight
    ensures c'.Valid() && c'.n == c.n + 1 && c'.Rows() == Push(old(c.Rows()), r)
    ensures Extends(c', c)
    ensures forall k | 0 <= k < c.id.Length && k != c.n :: c.id[k] == old(c.id[k])
    ensures forall k | 0 <= k < c.group.Length && k != c.n :: c.group[k] == old(c.group[k])
    ensures forall k | 0 <= k < c.active.Length && k != c.n :: c.active[k] == old(c.active[k])
    ensures forall k | 0 <= k < c.value.Length && k != c.n :: c.value[k] == old(c.value[k])
    ensures forall k | 0 <= k < c.weight.Length && k != c.n :: c.weight[k] == old(c.weight[k])
  {
    var id, group := AppendTwo(c.id, c.group, c.n, r.id, r.group);
    var active := Append(c.active, c.n, r.active);
    var value, weight := AppendTwo(c.value, c.weight, c.n, r.value, r.weight);
    c' := Columns(id, group, active, value, weight, c.n + 1);
  }

  // The columns of dst, taken as empty slices of their storage, are refilled.
  method UnzipRecordsAoS(src: array<Record>, dst: Columns) returns (out: Columns)
    requires dst.Valid()
    modifies dst.id, dst.group, dst.active, dst.value, dst.weight
    ensures out.Valid() && out.Rows() == Unzip(src[..]) && src[..] == old(src[..]) && Extends(out, dst)
  {
    out := dst.(n := 0);
    for i := 0 to src.Length
      invariant out.Valid() && out.Rows() == Unzip(src[..i]) && Extends(out, dst)
      invariant src[..] == old(src[..])
    {
      UnzipPush(src[..i], src[i]);
      assert src[..i + 1] == src[..i] + [src[i]];
      out := AppendRow(out, src[i]);
    }
    assert src[..src.Length] == src[..];
  }

  lemma RowsAreUnzipped(c: Columns)
    requires c.Valid()
    ensures Unzip(c.Records()) == c.Rows()
  {
  }

  // Filtering the columns is filtering the records they stand for, even when the columns of dst
  // reuse the storage of those of src.
  method FilterRecordsSoA(src: Columns, dst: Columns) returns (out: Columns)
    requires src.Valid() && dst.Valid() && Columnwise(src, dst)
    modifies dst.id, dst.group, dst.active, dst.value, dst.weight
    ensures out.Valid() && out.Rows() == Unzip(Filter(old(src.Records())))
  {
    hide Keep, Filter, Unzip;
    ghost var rs := src.Records();
    out := dst.(n := 0);
    NothingFiltered(rs);
    for i := 0 to src.n
      invariant out.Valid() && out.n <= i && Columnwise(src, out) && Extends(out, dst)
      invariant out.Rows() == Unzip(Filter(rs[..i]))
      invariant forall k: nat | i <= k < src.n :: src.Row(k) == rs[k]
    {
      ghost var kept := Filter(rs[..i]);
      FilterStep(rs, i);
      assert src.Row(i) == rs[i] == Record(src.id[i], src.group[i], src.active[i], src.value[i], src.weight[i]);
      if Keep(src.active[i], src.group[i], src.value[i], src.weight[i]) {
        UnzipPush(kept, rs[i]);
        assert Filter(rs[..i + 1]) == kept + [rs[i]];
        out := AppendRow(out, src.Row(i));
      } else {
        assert Filter(rs[..i + 1]) == kept;
      }
    }
    assert rs[..|rs|] == rs;
  }

  lemma NothingFiltered(rs: seq<Record>)
    ensures Unzip(Filter(rs[..0])) == RecordsSoA([], [], [], [], [])
  {
    assert rs[..0] == [];
  }

  // ---------------------------------------------------------------------------------
  // Checksums of records

  function Term(id: int, group: int, active: bool, value: real, weight: real): real {
    Rem(id, 97) as real * 0.03125 + group as real * 0.125 + (if active then 1.0 else 0.0) + Times(value, weight)
  }

  // Identifiers count by their remainder, of their own sign, in thirty-seconds; groups in eighths;
  // active records one more; and all of them value times weight.
  lemma TermCounts(id: int, group: int, active: bool, value: real, weight: real)
    ensures 32.0 * Term(id, group, active, value, weight) ==
            Rem(id, 97) as real + 4.0 * group as real + (if active then 32.0 else 0.0) + 32.0 * (value * weight)
    ensures -97 < Rem(id, 97) < 97 && (exists q: int :: id == 97 * q + Rem(id, 97)) && (id >= 0 ==> Rem(id, 97) >= 0) && (id <= 0 ==> Rem(id, 97) <= 0)
  {
    var q := if id >= 0 then id / 97 else -((-id) / 97);
    assert id == 97 * q + Rem(id, 97);
  }

  function SumAoS(rs: seq<Record>): real {
    if rs == [] then 0.0
    else
      var r := rs[|rs| - 1];
      SumAoS(rs[..|rs| - 1]) + Term(r.id, r.group, r.active, r.value, r.weight)
  }

  function SumSoA(c: RecordsSoA, n: nat): real
    requires c.Valid() && n <= |c.id|
  {
    if n == 0 then 0.0
    else SumSoA(c, n - 1) + Term(c.id[n - 1], c.group[n - 1], c.active[n - 1], c.value[n - 1], c.weight[n - 1])
  }

  lemma {:induction false} SumsAgree(rs: seq<Record>, n: nat)
    requires n <= |rs|
    ensures SumSoA(Unzip(rs), n) == SumAoS(rs[..n])
  {
    hide Term;
    if n > 0 {
      SumsAgree(rs, n - 1);
      assert rs[..n][..n - 1] == rs[..n - 1];
    }
  }

  method ChecksumRecordsAoS(rs: seq<Record>) returns (sum: real)
    ensures sum == SumAoS(rs)
  {
    hide Times;
    sum := 0.0;
    for i := 0 to |rs|
      invariant sum == SumAoS(rs[..i])
    {
      assert rs[..i + 1][..i] == rs[..i];
      var active := 0.0;
      if rs[i].active {
        active := 1.0;
      }
      sum := sum + (Rem(rs[i].id, 97) as real * 0.03125 + rs[i].group as real * 0.125 + active + Times(rs[i].value, rs[i].weight));
    }
    assert rs[..|rs|] == rs;
  }

  method ChecksumRecordsSoA(c: Columns) returns (sum: real)
    requires c.Valid()
    ensures sum == SumSoA(c.Rows(), c.n)
  {
    hide Times, Rem;
    sum := 0.0;
    for i := 0 to c.n
      invariant sum == SumSoA(c.Rows(), i)
    {
      assert SumSoA(c.Rows(), i + 1) == SumSoA(c.Rows(), i) + Term(c.id[i], c.group[i], c.active[i], c.value[i], c.weight[i]);
      var active := 0.0;
      if c.active[i] {
        active := 1.0;
      }
      sum := sum + (Rem(c.id[i], 97) as real * 0.03125 + c.group[i] as real * 0.125 + active + Times(c.value[i], c.weight[i]));
    }
  }

  // Filtering commutes with the change of layout, and so do the checksums.
  method FilterBoth(src: array<Record>, dst: array<Record>, unzipped: Columns, filtered: Columns)
    returns (buffer: array<Record>, n: nat, sumAoS: real, columns: Columns, sumSoA: real)
    requires unzipped.Valid() && filtered.Valid() && Columnwise(unzipped, filtered)
    modifies dst, unzipped.id, unzipped.group, unzipped.active, unzipped.value, unzipped.weight
    modifies filtered.id, filtered.group, filtered.active, filtered.value, filtered.weight
    ensures n <= buffer.Length && columns.Valid() && buffer[..n] == Filter(old(src[..]))
    ensures columns.Rows() == Unzip(buffer[..n]) && sumAoS == sumSoA
  {
    hide Filter, Unzip, Term;
    ghost var rs := src[..];
    var all := UnzipRecordsAoS(src, unzipped);
    RowsAreUnzipped(all);
    UnzipInjective(all.Records(), rs);
    columns := FilterRecordsSoA(all, filtered);
    sumSoA := ChecksumRecordsSoA(columns);
    buffer, n := FilterRecordsAoS(src, dst);
    sumAoS := ChecksumRecordsAoS(buffer[..n]);
    SumsAgree(buffer[..n], n);
    assert buffer[..n][..n] == buffer[..n];
    UnzipSize(buffer[..n]);
  }

  lemma UnzipSize(rs: seq<Record>)
    ensures |Unzip(rs).id| == |rs|
  {
  }

  lemma UnzipInjective(a: seq<Record>, b: seq<Record>)
    requires Unzip(a) == Unzip(b)
    ensures a == b
  {
    UnzipSize(a);
    UnzipSize(b);
    forall i | 0 <= i < |a|
      ensures a[i] == b[i]
    {
      assert Unzip(a).id[i] == Unzip(b).id[i] && Unzip(a).group[i] == Unzip(b).group[i];
      assert Unzip(a).active[i] == Unzip(b).active[i];
      assert Unzip(a).value[i] == Unzip(b).value[i] && Unzip(a).weight[i] == Unzip(b).weight[i];
    }
  }
}
