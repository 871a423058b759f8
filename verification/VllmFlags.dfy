/** The flag table of vllm (backend/app/control/engines/flags.py). */
module VllmFlags {
  import opened Text
  import opened Flags
  import opened EngineTables

  const PARALLELISM: seq<Spec> := [
    Spec("tp", false, ["tensor_parallel_size", "tp_size"], "--tensor-parallel-size", false),
    Spec("dp", false, ["data_parallel_size", "dp_size"], "--data-parallel-size", false),
    Spec("pp", false, ["pipeline_parallel_size", "pp_size"], "--pipeline-parallel-size", false),
    Toggle("enable_expert_parallel"),
    Setting("distributed_executor_backend")
  ]

  const MEMORY: seq<Spec> := [
    Setting("gpu_memory_utilization"),
    Setting("swap_space"),
    Setting("cpu_offload_gb"),
    Setting("block_size"),
    Setting("kv_cache_dtype"),
    Toggle("enable_prefix_caching")
  ]

  const BATCHING: seq<Spec> := [
    Setting("max_num_seqs"),
    Setting("max_num_batched_tokens"),
    Toggle("enable_chunked_prefill"),
    Setting("scheduler_delay_factor"),
    Setting("max_seq_len_to_capture")
  ]

  const MODEL: seq<Spec> := [
    Setting("dtype"),
    Setting("quantization"),
    Setting("max_model_len"),
    Toggle("trust_remote_code"),
    Setting("revision"),
    Setting("tokenizer"),
    Setting("tokenizer_mode"),
    Setting("load_format"),
    Setting("seed")
  ]

  const EXECUTION: seq<Spec> := [
    Toggle("enforce_eager"),
    Toggle("disable_custom_all_reduce"),
    Setting("compilation_config")
  ]

  const SPECULATIVE: seq<Spec> := [
    Setting("speculative_config"),
    Setting("speculative_model"),
    Setting("num_speculative_tokens"),
    Setting("speculative_draft_tensor_parallel_size")
  ]

  const API: seq<Spec> := [
    Toggle("enable_lora"),
    Setting("max_loras"),
    Setting("max_lora_rank"),
    Toggle("disable_log_requests"),
    Toggle("disable_log_stats"),
    Setting("uvicorn_log_level")
  ]

  // ---- The engine ----

  const TABLE :=
    PARALLELISM + MEMORY + BATCHING + MODEL + EXECUTION + SPECULATIVE +
    API

  const VLLM := Engine(TABLE, true)

  /** The entry a name belongs to, told from its length and two of its letters. */
  function Number(k: string): int {
    if |k| < 2 then -1 else
    match (|k|, k[0], k[|k| - 2])
    case (2, 't', 't') | (20, 't', 'z') | (7, 't', 'z') => 0
    case (2, 'd', 'd') | (18, 'd', 'z') | (7, 'd', 'z') => 1
    case (2, 'p', 'p') | (22, 'p', 'z') | (7, 'p', 'z') => 2
    case (22, 'e', 'e') => 3
    case (28, 'd', 'n') => 4
    case (22, 'g', 'o') => 5
    case (10, 's', 'c') => 6
    case (14, 'c', 'g') => 7
    case (10, 'b', 'z') => 8
    case (14, 'k', 'p') => 9
    case (21, 'e', 'n') => 10
    case (12, 'm', 'q') => 11
    case (22, 'm', 'n') => 12
    case (22, 'e', 'l') => 13
    case (22, 's', 'o') => 14
    case (22, 'm', 'r') => 15
    case (5, 'd', 'p') => 16
    case (12, 'q', 'o') => 17
    case (13, 'm', 'e') => 18
    case (17, 't', 'd') => 19
    case (8, 'r', 'o') => 20
    case (9, 't', 'e') => 21
    case (14, 't', 'd') => 22
    case (11, 'l', 'a') => 23
    case (4, 's', 'e') => 24
    case (13, 'e', 'e') => 25
    case (25, 'd', 'c') => 26
    case (18, 'c', 'i') => 27
    case (18, 's', 'i') => 28
    case (17, 's', 'e') => 29
    case (22, 'n', 'n') => 30
    case (38, 's', 'z') => 31
    case (11, 'e', 'r') => 32
    case (9, 'm', 'a') => 33
    case (13, 'm', 'n') => 34
    case (20, 'd', 't') => 35
    case (17, 'd', 't') => 36
    case (17, 'u', 'e') => 37
    case _ => -1
  }

  // ---- Each name is its own entry's ----

  lemma Parallelism1()
    ensures Good(Number, "tp", 0)
    ensures Good(Number, "tensor_parallel_size", 0)
    ensures Good(Number, "tp_size", 0)
    ensures Good(Number, "dp", 1)
  {
  }

  lemma Parallelism2()
    ensures Good(Number, "data_parallel_size", 1)
    ensures Good(Number, "dp_size", 1)
    ensures Good(Number, "pp", 2)
    ensures Good(Number, "pipeline_parallel_size", 2)
  {
  }

  lemma Parallelism3()
    ensures Good(Number, "pp_size", 2)
    ensures Good(Number, "enable_expert_parallel", 3)
  {
  }

  lemma Parallelism4()
    ensures Good(Number, "distributed_executor_backend", 4)
  {
  }

  lemma ParallelismFlags1()
    ensures Kebab("tensor_parallel_size") == "--tensor-parallel-size"
  {
    assert ReplaceChar("tensor_parallel_size", '_', '-') == "tensor-parallel-size";
  }

  lemma ParallelismFlags2()
    ensures Kebab("data_parallel_size") == "--data-parallel-size"
  {
    assert ReplaceChar("data_parallel_size", '_', '-') == "data-parallel-size";
  }

  lemma ParallelismFlags3()
    ensures Kebab("pipeline_parallel_size") == "--pipeline-parallel-size"
  {
    assert ReplaceChar("pipeline_parallel_size", '_', '-') == "pipeline-parallel-size";
  }

  lemma Parallelism()
    ensures Numbered(Number, PARALLELISM, 0)
  {
    hide Good, Number, Kebab;
    Parallelism1();
    Parallelism2();
    Parallelism3();
    Parallelism4();
    ParallelismFlags1();
    ParallelismFlags2();
    ParallelismFlags3();
  }

  lemma Memory1()
    ensures Good(Number, "gpu_memory_utilization", 5)
    ensures Good(Number, "swap_space", 6)
    ensures Good(Number, "cpu_offload_gb", 7)
  {
  }

  lemma Memory2()
    ensures Good(Number, "block_size", 8)
    ensures Good(Number, "kv_cache_dtype", 9)
    ensures Good(Number, "enable_prefix_caching", 10)
  {
  }

  lemma Memory()
    ensures Numbered(Number, MEMORY, 5)
  {
    hide Good, Number;
    Memory1();
    Memory2();
  }

  lemma Batching1()
    ensures Good(Number, "max_num_seqs", 11)
    ensures Good(Number, "max_num_batched_tokens", 12)
  {
  }

  lemma Batching2()
    ensures Good(Number, "enable_chunked_prefill", 13)
    ensures Good(Number, "scheduler_delay_factor", 14)
  {
  }

  lemma Batching3()
    ensures Good(Number, "max_seq_len_to_capture", 15)
  {
  }

  lemma Batching()
    ensures Numbered(Number, BATCHING, 11)
  {
    hide Good, Number;
    Batching1();
    Batching2();
    Batching3();
  }

  lemma Model1()
    ensures Good(Number, "dtype", 16)
    ensures Good(Number, "quantization", 17)
    ensures Good(Number, "max_model_len", 18)
    ensures Good(Number, "trust_remote_code", 19)
  {
  }

  lemma Model2()
    ensures Good(Number, "revision", 20)
    ensures Good(Number, "tokenizer", 21)
    ensures Good(Number, "tokenizer_mode", 22)
    ensures Good(Number, "load_format", 23)
  {
  }

  lemma Model3()
    ensures Good(Number, "seed", 24)
  {
  }

  lemma Model()
    ensures Numbered(Number, MODEL, 16)
  {
    hide Good, Number;
    Model1();
    Model2();
    Model3();
  }

  lemma Execution1()
    ensures Good(Number, "enforce_eager", 25)
    ensures Good(Number, "disable_custom_all_reduce", 26)
  {
  }

  lemma Execution2()
    ensures Good(Number, "compilation_config", 27)
  {
  }

  lemma Execution()
    ensures Numbered(Number, EXECUTION, 25)
  {
    hide Good, Number;
    Execution1();
    Execution2();
  }

  lemma Speculative1()
    ensures Good(Number, "speculative_config", 28)
    ensures Good(Number, "speculative_model", 29)
  {
  }

  lemma Speculative2()
    ensures Good(Number, "num_speculative_tokens", 30)
  {
  }

  lemma Speculative3()
    ensures Good(Number, "speculative_draft_tensor_parallel_size", 31)
  {
  }

  lemma Speculative()
    ensures Numbered(Number, SPECULATIVE, 28)
  {
    hide Good, Number;
    Speculative1();
    Speculative2();
    Speculative3();
  }

  lemma Api1()
    ensures Good(Number, "enable_lora", 32)
    ensures Good(Number, "max_loras", 33)
    ensures Good(Number, "max_lora_rank", 34)
    ensures Good(Number, "disable_log_requests", 35)
  {
  }

  lemma Api2()
    ensures Good(Number, "disable_log_stats", 36)
    ensures Good(Number, "uvicorn_log_level", 37)
  {
  }

  lemma Api()
    ensures Numbered(Number, API, 32)
  {
    hide Good, Number;
    Api1();
    Api2();
  }

  /** The table of vllm meets the condition of the round-trip theorems. */
  lemma VllmIsCatalogue()
    ensures Catalogue(VLLM)
  {
    hide Catalogue, Numbered, Number;
    TableIsNumbered();
    NumberedIsCatalogue(Number, VLLM);
  }

  lemma TableIsNumbered()
    ensures Numbered(Number, TABLE, 0)
  {
    hide Numbered, Number;
    Parallelism();
    Memory();
    Batching();
    Model();
    Execution();
    Speculative();
    Api();
    var table := PARALLELISM;
    NumberedBoth(Number, table, MEMORY, 0);
    table := table + MEMORY;
    NumberedBoth(Number, table, BATCHING, 0);
    table := table + BATCHING;
    NumberedBoth(Number, table, MODEL, 0);
    table := table + MODEL;
    NumberedBoth(Number, table, EXECUTION, 0);
    table := table + EXECUTION;
    NumberedBoth(Number, table, SPECULATIVE, 0);
    table := table + SPECULATIVE;
    NumberedBoth(Number, table, API, 0);
    table := table + API;
  }

  lemma VllmKnowsNone(k: string)
    requires Number(k) < 0
    ensures Claim(VLLM.specs, k).None?
  {
    hide Numbered, Number;
    TableIsNumbered();
    NotNumbered(Number, TABLE, 0, k);
  }
}
