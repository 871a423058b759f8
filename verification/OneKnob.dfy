/** The round-trip check on one setting alone, and the vllm entry on which its
    condition bites. */
module OneKnob {
  import opened Text
  import opened Flags
  import opened FlagWords
  import opened EngineCommand
  import opened RoundTrip
  import opened Survival
  import opened Passing
  import opened EngineTables
  import opened VllmFlags

  /** One setting under a well-shaped key passes the check exactly when its
      value is plain. */
  lemma OneSettingPasses(e: Engine, k: string, v: Value)
    requires Catalogue(e) && KeyShaped(k)
    ensures Passes(e, Single(k, v)) <==> Plain(e, k, v)
  {
    hide Catalogue, Passes, Plain, Speaks, KeyShaped;
    var config := Single(k, v);
    assert k in config.m && config.m[k] == v;
    PassesExactlyWhenPlain(e, config);
  }

  // ---- Where the condition bites ----

  /** vllm's entry for tensor parallelism. */
  const VLLM_TP := Spec("tp", false, ["tensor_parallel_size", "tp_size"], "--tensor-parallel-size", false)

  lemma TpSpelling(e: Engine)
    requires Catalogue(e) && VLLM_TP in e.specs
    ensures Claim(e.specs, "tp") == Some("tp") && SpecAt(e.specs, "tp") == Some(VLLM_TP)
    ensures Claim(e.specs, "tensor_parallel_size") == Some("tp")
  {
    assert "tensor_parallel_size" in VLLM_TP.aliases;
    assert Spelling(e, VLLM_TP, "tp") && Spelling(e, VLLM_TP, "tensor_parallel_size");
  }

  /** Its negation reads back as a setting of another name. */
  lemma TpOff(e: Engine)
    requires Catalogue(e) && VLLM_TP in e.specs && e.negateAll
    ensures !Plain(e, "tp", Switch(false))
  {
    hide Catalogue, Claim, SpecAt, Kebab;
    TpSpelling(e);
    TpFlag();
    FlagKeyFolds(e, "tp");
    KebabBack("tensor_parallel_size");
    assert FlagKey(e, "tp") == "tensor_parallel_size";
    assert "tp" != "tensor_parallel_size" by { assert |"tp"| != |"tensor_parallel_size"|; }
  }

  lemma TpFlag()
    ensures Kebab("tensor_parallel_size") == "--tensor-parallel-size"
    ensures KeyShaped("tp") && KeyShaped("tensor_parallel_size")
  {
    assert ReplaceChar("tensor_parallel_size", '_', '-') == "tensor-parallel-size";
    assert "tp"[0] == "tensor_parallel_size"[0] == 't';
  }

  /** `tp: false` on vllm goes out as `--no-tensor-parallel-size`, which reads
      back as a setting of that name: no problem with `tp` is seen, yet the
      config does not round-trip. */
  lemma TpOffDoesNotComeBack()
    ensures !Passes(VLLM, Single("tp", Switch(false)))
  {
    hide Catalogue, Passes, Plain, KeyShaped;
    VllmIsCatalogue();
    assert VLLM_TP == PARALLELISM[0] == TABLE[0];
    TpOff(VLLM);
    TpFlag();
    OneSettingPasses(VLLM, "tp", Switch(false));
  }
}
