/** The parameter heuristic of sorter/auto_config.py: the fan-in `k` as a
    step function of the file size, and the block size (records per initial
    run) from the memory budget and the file size.  The two environment
    reads of the source, the available memory and the file size, are
    parameters here.
 */
module AutoConfig {
  import opened Records

  const MB: nat := 1024 * 1024

  /** The smallest block size the tuner hands out. */
  const MinBlock: nat := 4096


  /** `choose_k`: 6, 8, 12, 16 or 24 as the file passes 50, 200, 500 and
      2048 MiB. */
  function ChooseK(fileSize: nat): (k: nat)
    ensures k in {6, 8, 12, 16, 24}
  {
    if fileSize < 50 * MB then 6
    else if fileSize < 200 * MB then 8
    else if fileSize < 500 * MB then 12
    else if fileSize < 2 * 1024 * MB then 16
    else 24
  }

  /** A larger file never gets a smaller fan-in. */
  lemma ChooseKMonotone(a: nat, b: nat)
    requires a <= b
    ensures ChooseK(a) <= ChooseK(b)
  {
  }

  /** The five steps and where they start. */
  lemma ChooseKThresholds(fileSize: nat)
    ensures ChooseK(fileSize) == 6 <==> fileSize < 50 * MB
    ensures ChooseK(fileSize) == 24 <==> fileSize >= 2048 * MB
    ensures ChooseK(fileSize) <= 8 <==> fileSize < 200 * MB
    ensures ChooseK(fileSize) <= 12 <==> fileSize < 500 * MB
  {
  }

  /** Python's math.ceil(a / b) for naturals, computed exactly. */
  function CeilDiv(a: nat, b: nat): (q: nat)
    requires b > 0
    ensures q * b >= a
    ensures q == 0 || (q - 1) * b < a
  {
    var q := (a + b - 1) / b;
    assert q * b + (a + b - 1) % b == a + b - 1;
    q
  }

  /** `max_block`: the largest block size for which k + 1 buffers of 8-byte
      records fit in the memory budget, or 1 when not even one-record
      buffers fit. */
  function MaxBlock(availableMem: nat, k: nat): (b: nat)
    ensures b >= 1
    ensures b > 1 ==> 8 * (k + 1) * b <= availableMem
    ensures availableMem >= 8 * (k + 1) ==> 8 * (k + 1) * b <= availableMem < 8 * (k + 1) * (b + 1)
    ensures availableMem < 8 * (k + 1) ==> b == 1
  {
    var d := 8 * (k + 1);
    var q := availableMem / d;
    assert q * d + availableMem % d == availableMem;
    assert d * (q + 1) == q * d + d;
    Max(1, q)
  }

  /** `target_block`: the block size for about k * k initial runs, so that
      two passes finish the merge (at least 1). */
  function TargetBlock(fileSize: nat, k: nat): (b: nat)
    requires k > 0
    ensures b >= 1
    ensures b * (k * k) >= fileSize / 8
  {
    Max(1, CeilDiv(fileSize / 8, k * k))
  }

  /** `auto_tune_params`: the pair (block_size, k). */
  function AutoTuneParams(availableMem: nat, fileSize: nat): (r: (nat, nat))
    ensures r.1 == ChooseK(fileSize)
  {
    var k := ChooseK(fileSize);
    var block := Min(MaxBlock(availableMem, k), TargetBlock(fileSize, k));
    (Max(block, MinBlock), k)
  }

  /** The block size is never below 4096 and the fan-in never below 6. */
  lemma AutoTuneBounds(availableMem: nat, fileSize: nat)
    ensures AutoTuneParams(availableMem, fileSize).0 >= MinBlock
    ensures AutoTuneParams(availableMem, fileSize).1 >= 6
  {
  }

  /** Above the floor, the k + 1 buffers fit in the memory budget. */
  lemma AutoTuneFitsMemory(availableMem: nat, fileSize: nat)
    ensures var (b, k) := AutoTuneParams(availableMem, fileSize);
      b > MinBlock ==> 8 * (k + 1) * b <= availableMem
  {
    var (b, k) := AutoTuneParams(availableMem, fileSize);
    if b > MinBlock {
      var m := MaxBlock(availableMem, k);
      assert b <= m;
      MulMonotone(8 * (k + 1), b, m);
    }
  }

  lemma MulMonotone(c: nat, a: nat, b: nat)
    requires a <= b
    ensures c * a <= c * b
  {
    assert c * b - c * a == c * (b - a);
  }

  /** At the floor the buffers may not fit: with 1000 bytes of budget and an
      empty file the tuner still asks for 4096-record blocks. */
  lemma AutoTuneFloorExceedsBudget()
    ensures var (b, k) := AutoTuneParams(1000, 0);
      b == MinBlock && 8 * (k + 1) * b > 1000
  {
    assert ChooseK(0) == 6;
    assert MaxBlock(1000, 6) == 17;
  }

  /** The block size never exceeds the two-pass target unless the floor
      lifts it. */
  lemma AutoTuneBelowTarget(availableMem: nat, fileSize: nat)
    ensures var (b, k) := AutoTuneParams(availableMem, fileSize);
      b <= Max(TargetBlock(fileSize, k), MinBlock)
  {
  }

  /** The fan-in depends on the file size only. */
  lemma AutoTuneKIgnoresMemory(mem1: nat, mem2: nat, fileSize: nat)
    ensures AutoTuneParams(mem1, fileSize).1 == AutoTuneParams(mem2, fileSize).1
  {
  }

  /** Largest number of records the visualiser samples. */
  const VisualizeMaxNumbers: nat := 300

  /** `viz_block` and `viz_k` of `VisualizeSort._run_inner`. */
  function VizParams(blockSize: nat, k: nat): (r: (nat, nat))
    ensures r.0 <= blockSize && r.1 <= k && r.1 <= 4
  {
    (Min(blockSize, Max(10, VisualizeMaxNumbers / 4)), Min(k, 4))
  }

  /** Because the tuner never goes below 4096 records or a fan-in of 6, the
      visualiser always runs with 75-record blocks and a fan-in of 4. */
  lemma VisualizerParamsFixed(availableMem: nat, fileSize: nat)
    ensures var (b, k) := AutoTuneParams(availableMem, fileSize);
      VizParams(b, k) == (75, 4)
  {
    AutoTuneBounds(availableMem, fileSize);
  }
}
