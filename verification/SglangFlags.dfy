/** The flag table of sglang (backend/app/control/engines/flags.py). */
module SglangFlags {
  import opened Text
  import opened Flags
  import opened EngineTables

  const PARALLELISM: seq<Spec> := [
    Spec("tp", false, ["tp_size", "tensor_parallel_size"], "--tp-size", false),
    Spec("dp", false, ["dp_size", "data_parallel_size"], "--dp-size", false),
    Spec("pp", false, ["pp_size", "pipeline_parallel_size"], "--pp-size", false),
    Spec("ep", false, ["ep_size", "expert_parallel_size"], "--ep-size", false),
    Spec("dcp_size", false, ["decode_context_parallel_size"], "", false),
    Spec("attn_cp_size", false, ["attention_context_parallel_size"], "", false),
    Spec("moe_dp_size", false, ["moe_data_parallel_size"], "", false),
    Spec("enable_dp_attention", true, ["enable_dp_attn"], "", false)
  ]

  const MEMORY: seq<Spec> := [
    Setting("mem_fraction_static"),
    Setting("max_total_tokens"),
    Setting("kv_cache_dtype"),
    Setting("page_size"),
    Toggle("disable_radix_cache"),
    Setting("radix_eviction_policy")
  ]

  const BATCHING: seq<Spec> := [
    Setting("chunked_prefill_size"),
    Setting("max_prefill_tokens"),
    Setting("max_running_requests"),
    Setting("schedule_policy"),
    Setting("schedule_conservativeness"),
    Toggle("enable_mixed_chunk"),
    Setting("num_continuous_decode_steps")
  ]

  const BACKENDS: seq<Spec> := [
    Setting("attention_backend"),
    Setting("sampling_backend"),
    Setting("grammar_backend")
  ]

  const GRAPHS: seq<Spec> := [
    Toggle("enable_torch_compile"),
    Setting("torch_compile_max_bs"),
    Setting("cuda_graph_max_bs"),
    Setting("cuda_graph_bs"),
    Toggle("disable_cuda_graph"),
    Toggle("disable_cuda_graph_padding")
  ]

  const MODEL: seq<Spec> := [
    Setting("dtype"),
    Setting("quantization"),
    Setting("context_length"),
    Toggle("trust_remote_code"),
    Setting("revision"),
    Setting("tokenizer_path"),
    Setting("tokenizer_mode"),
    Spec("enable_multimodal", true, [], "", true)
  ]

  const MAMBA: seq<Spec> := [
    Setting("mamba_ssm_dtype"),
    Setting("mamba_full_memory_ratio"),
    Spec("mamba_scheduler_strategy", false, ["mamba_radix_cache_strategy"], "", false),
    Setting("max_mamba_cache_size")
  ]

  const SPECULATIVE: seq<Spec> := [
    Setting("speculative_algorithm"),
    Spec("speculative_draft_model_path", false, ["speculative_draft_model"], "", false),
    Setting("speculative_num_draft_tokens"),
    Setting("speculative_num_steps"),
    Setting("speculative_eagle_topk")
  ]

  const API: seq<Spec> := [
    Setting("reasoning_parser"),
    Setting("tool_call_parser"),
    Setting("chat_template"),
    Toggle("stream_response_default_include_usage"),
    Toggle("enable_cache_report"),
    Toggle("enable_metrics"),
    Toggle("show_time_cost"),
    Setting("log_level"),
    Toggle("log_requests")
  ]

  const MISC: seq<Spec> := [
    Setting("random_seed"),
    Setting("watchdog_timeout"),
    Toggle("enable_p2p_check"),
    Toggle("allow_auto_truncate")
  ]

  // ---- The engine ----

  const TABLE :=
    PARALLELISM + MEMORY + BATCHING + BACKENDS + GRAPHS + MODEL +
    MAMBA + SPECULATIVE + API + MISC

  const SGLANG := Engine(TABLE, false)

  /** The entry a name belongs to, told from its length and two of its letters. */
  function Number(k: string): int {
    if |k| < 2 then -1 else
    match (|k|, k[0], k[|k| - 2])
    case (2, 't', 't') | (7, 't', 'z') | (20, 't', 'z') => 0
    case (2, 'd', 'd') | (7, 'd', 'z') | (18, 'd', 'z') => 1
    case (2, 'p', 'p') | (7, 'p', 'z') | (22, 'p', 'z') => 2
    case (2, 'e', 'e') | (7, 'e', 'z') | (20, 'e', 'z') => 3
    case (8, 'd', 'z') | (28, 'd', 'z') => 4
    case (12, 'a', 'z') | (31, 'a', 'z') => 5
    case (11, 'm', 'z') | (22, 'm', 'z') => 6
    case (19, 'e', 'o') | (14, 'e', 't') => 7
    case (19, 'm', 'i') => 8
    case (16, 'm', 'n') => 9
    case (14, 'k', 'p') => 10
    case (9, 'p', 'z') => 11
    case (19, 'd', 'h') => 12
    case (21, 'r', 'c') => 13
    case (20, 'c', 'z') => 14
    case (18, 'm', 'n') => 15
    case (20, 'm', 't') => 16
    case (15, 's', 'c') => 17
    case (25, 's', 's') => 18
    case (18, 'e', 'n') => 19
    case (27, 'n', 'p') => 20
    case (17, 'a', 'n') => 21
    case (16, 's', 'n') => 22
    case (15, 'g', 'n') => 23
    case (20, 'e', 'l') => 24
    case (20, 't', 'b') => 25
    case (17, 'c', 'b') => 26
    case (13, 'c', 'b') => 27
    case (18, 'd', 'p') => 28
    case (26, 'd', 'n') => 29
    case (5, 'd', 'p') => 30
    case (12, 'q', 'o') => 31
    case (14, 'c', 't') => 32
    case (17, 't', 'd') => 33
    case (8, 'r', 'o') => 34
    case (14, 't', 't') => 35
    case (14, 't', 'd') => 36
    case (17, 'e', 'a') => 37
    case (15, 'm', 'p') => 38
    case (23, 'm', 'i') => 39
    case (24, 'm', 'g') | (26, 'm', 'g') => 40
    case (20, 'm', 'z') => 41
    case (21, 's', 'h') => 42
    case (28, 's', 't') | (23, 's', 'e') => 43
    case (28, 's', 'n') => 44
    case (21, 's', 'p') => 45
    case (22, 's', 'p') => 46
    case (16, 'r', 'e') => 47
    case (16, 't', 'e') => 48
    case (13, 'c', 't') => 49
    case (37, 's', 'g') => 50
    case (19, 'e', 'r') => 51
    case (14, 'e', 'c') => 52
    case (14, 's', 's') => 53
    case (9, 'l', 'e') => 54
    case (12, 'l', 't') => 55
    case (11, 'r', 'e') => 56
    case (16, 'w', 'u') => 57
    case (16, 'e', 'c') => 58
    case (19, 'a', 't') => 59
    case _ => -1
  }

  // ---- Each name is its own entry's ----

  lemma Parallelism1()
    ensures Good(Number, "tp", 0)
    ensures Good(Number, "tp_size", 0)
    ensures Good(Number, "tensor_parallel_size", 0)
    ensures Good(Number, "dp", 1)
  {
  }

  lemma Parallelism2()
    ensures Good(Number, "dp_size", 1)
    ensures Good(Number, "data_parallel_size", 1)
    ensures Good(Number, "pp", 2)
    ensures Good(Number, "pp_size", 2)
  {
  }

  lemma Parallelism3()
    ensures Good(Number, "pipeline_parallel_size", 2)
    ensures Good(Number, "ep", 3)
    ensures Good(Number, "ep_size", 3)
    ensures Good(Number, "expert_parallel_size", 3)
  {
  }

  lemma Parallelism4()
    ensures Good(Number, "dcp_size", 4)
    ensures Good(Number, "decode_context_parallel_size", 4)
    ensures Good(Number, "attn_cp_size", 5)
  {
  }

  lemma Parallelism5()
    ensures Good(Number, "attention_context_parallel_size", 5)
    ensures Good(Number, "moe_dp_size", 6)
  {
  }

  lemma Parallelism6()
    ensures Good(Number, "moe_data_parallel_size", 6)
    ensures Good(Number, "enable_dp_attention", 7)
  {
  }

  lemma Parallelism7()
    ensures Good(Number, "enable_dp_attn", 7)
  {
  }

  lemma ParallelismFlags()
    ensures Kebab("tp_size") == "--tp-size"
    ensures Kebab("dp_size") == "--dp-size"
    ensures Kebab("pp_size") == "--pp-size"
    ensures Kebab("ep_size") == "--ep-size"
  {
    assert ReplaceChar("tp_size", '_', '-') == "tp-size";
    assert ReplaceChar("dp_size", '_', '-') == "dp-size";
    assert ReplaceChar("pp_size", '_', '-') == "pp-size";
    assert ReplaceChar("ep_size", '_', '-') == "ep-size";
  }

  lemma Parallelism()
    ensures Numbered(Number, PARALLELISM, 0)
  {
    hide Good, Number, Kebab;
    Parallelism1();
    Parallelism2();
    Parallelism3();
    Parallelism4();
    Parallelism5();
    Parallelism6();
    Parallelism7();
    ParallelismFlags();
  }

  lemma Memory1()
    ensures Good(Number, "mem_fraction_static", 8)
    ensures Good(Number, "max_total_tokens", 9)
    ensures Good(Number, "kv_cache_dtype", 10)
  {
  }

  lemma Memory2()
    ensures Good(Number, "page_size", 11)
    ensures Good(Number, "disable_radix_cache", 12)
    ensures Good(Number, "radix_eviction_policy", 13)
  {
  }

  lemma Memory()
    ensures Numbered(Number, MEMORY, 8)
  {
    hide Good, Number;
    Memory1();
    Memory2();
  }

  lemma Batching1()
    ensures Good(Number, "chunked_prefill_size", 14)
    ensures Good(Number, "max_prefill_tokens", 15)
  {
  }

  lemma Batching2()
    ensures Good(Number, "max_running_requests", 16)
    ensures Good(Number, "schedule_policy", 17)
  {
  }

  lemma Batching3()
    ensures Good(Number, "schedule_conservativeness", 18)
    ensures Good(Number, "enable_mixed_chunk", 19)
  {
  }

  lemma Batching4()
    ensures Good(Number, "num_continuous_decode_steps", 20)
  {
  }

  lemma Batching()
    ensures Numbered(Number, BATCHING, 14)
  {
    hide Good, Number;
    Batching1();
    Batching2();
    Batching3();
    Batching4();
  }

  lemma BackendsNames()
    ensures Good(Number, "attention_backend", 21)
    ensures Good(Number, "sampling_backend", 22)
    ensures Good(Number, "grammar_backend", 23)
  {
  }

  lemma Backends()
    ensures Numbered(Number, BACKENDS, 21)
  {
    hide Good, Number;
    BackendsNames();
  }

  lemma Graphs1()
    ensures Good(Number, "enable_torch_compile", 24)
    ensures Good(Number, "torch_compile_max_bs", 25)
  {
  }

  lemma Graphs2()
    ensures Good(Number, "cuda_graph_max_bs", 26)
    ensures Good(Number, "cuda_graph_bs", 27)
    ensures Good(Number, "disable_cuda_graph", 28)
  {
  }

  lemma Graphs3()
    ensures Good(Number, "disable_cuda_graph_padding", 29)
  {
  }

  lemma Graphs()
    ensures Numbered(Number, GRAPHS, 24)
  {
    hide Good, Number;
    Graphs1();
    Graphs2();
    Graphs3();
  }

  lemma Model1()
    ensures Good(Number, "dtype", 30)
    ensures Good(Number, "quantization", 31)
    ensures Good(Number, "context_length", 32)
    ensures Good(Number, "trust_remote_code", 33)
  {
  }

  lemma Model2()
    ensures Good(Number, "revision", 34)
    ensures Good(Number, "tokenizer_path", 35)
    ensures Good(Number, "tokenizer_mode", 36)
    ensures Good(Number, "enable_multimodal", 37)
  {
  }

  lemma Model()
    ensures Numbered(Number, MODEL, 30)
  {
    hide Good, Number;
    Model1();
    Model2();
  }

  lemma Mamba1()
    ensures Good(Number, "mamba_ssm_dtype", 38)
    ensures Good(Number, "mamba_full_memory_ratio", 39)
  {
  }

  lemma Mamba2()
    ensures Good(Number, "mamba_scheduler_strategy", 40)
    ensures Good(Number, "mamba_radix_cache_strategy", 40)
  {
  }

  lemma Mamba3()
    ensures Good(Number, "max_mamba_cache_size", 41)
  {
  }

  lemma Mamba()
    ensures Numbered(Number, MAMBA, 38)
  {
    hide Good, Number;
    Mamba1();
    Mamba2();
    Mamba3();
  }

  lemma Speculative1()
    ensures Good(Number, "speculative_algorithm", 42)
    ensures Good(Number, "speculative_draft_model_path", 43)
  {
  }

  lemma Speculative2()
    ensures Good(Number, "speculative_draft_model", 43)
    ensures Good(Number, "speculative_num_draft_tokens", 44)
  {
  }

  lemma Speculative3()
    ensures Good(Number, "speculative_num_steps", 45)
    ensures Good(Number, "speculative_eagle_topk", 46)
  {
  }

  lemma Speculative()
    ensures Numbered(Number, SPECULATIVE, 42)
  {
    hide Good, Number;
    Speculative1();
    Speculative2();
    Speculative3();
  }

  lemma Api1()
    ensures Good(Number, "reasoning_parser", 47)
    ensures Good(Number, "tool_call_parser", 48)
    ensures Good(Number, "chat_template", 49)
  {
  }

  lemma Api2()
    ensures Good(Number, "stream_response_default_include_usage", 50)
  {
  }

  lemma Api3()
    ensures Good(Number, "enable_cache_report", 51)
    ensures Good(Number, "enable_metrics", 52)
    ensures Good(Number, "show_time_cost", 53)
  {
  }

  lemma Api4()
    ensures Good(Number, "log_level", 54)
    ensures Good(Number, "log_requests", 55)
  {
  }

  lemma Api()
    ensures Numbered(Number, API, 47)
  {
    hide Good, Number;
    Api1();
    Api2();
    Api3();
    Api4();
  }

  lemma Misc1()
    ensures Good(Number, "random_seed", 56)
    ensures Good(Number, "watchdog_timeout", 57)
    ensures Good(Number, "enable_p2p_check", 58)
  {
  }

  lemma Misc2()
    ensures Good(Number, "allow_auto_truncate", 59)
  {
  }

  lemma Misc()
    ensures Numbered(Number, MISC, 56)
  {
    hide Good, Number;
    Misc1();
    Misc2();
  }

  /** The table of sglang meets the condition of the round-trip theorems. */
  lemma SglangIsCatalogue()
    ensures Catalogue(SGLANG)
  {
    hide Catalogue, Numbered, Number;
    TableIsNumbered();
    NumberedIsCatalogue(Number, SGLANG);
  }

  lemma TableIsNumbered()
    ensures Numbered(Number, TABLE, 0)
  {
    hide Numbered, Number;
    Parallelism();
    Memory();
    Batching();
    Backends();
    Graphs();
    Model();
    Mamba();
    Speculative();
    Api();
    Misc();
    var table := PARALLELISM;
    NumberedBoth(Number, table, MEMORY, 0);
    table := table + MEMORY;
    NumberedBoth(Number, table, BATCHING, 0);
    table := table + BATCHING;
    NumberedBoth(Number, table, BACKENDS, 0);
    table := table + BACKENDS;
    NumberedBoth(Number, table, GRAPHS, 0);
    table := table + GRAPHS;
    NumberedBoth(Number, table, MODEL, 0);
    table := table + MODEL;
    NumberedBoth(Number, table, MAMBA, 0);
    table := table + MAMBA;
    NumberedBoth(Number, table, SPECULATIVE, 0);
    table := table + SPECULATIVE;
    NumberedBoth(Number, table, API, 0);
    table := table + API;
    NumberedBoth(Number, table, MISC, 0);
    table := table + MISC;
  }
}
